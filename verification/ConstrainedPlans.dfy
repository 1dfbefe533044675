/**
 What the intent's constraints make of a step's arguments, kind by kind, stated without the
 functions that compute them: which argument is set to what, and when a step cannot be constrained.
 */
module ConstrainedPlans {
  import opened Text
  import opened Json
  import opened References
  import opened Contracts
  import opened Operations
  import opened Planner

  // ---------- what an intent names ----------

  /** The entity is missing, or counts as false. */
  predicate NamesNothing(entities: seq<Field>, key: string) {
    var v := Lookup(entities, key);
    v.None? || IsFalsy(v.value)
  }

  /** The first of two entities that names something is this string. */
  predicate NamesString(entities: seq<Field>, first: string, second: string, s: string) {
    if NamesNothing(entities, first) then Lookup(entities, second) == Some(Str(s))
    else Lookup(entities, first) == Some(Str(s))
  }

  predicate NamesStart(entities: seq<Field>, s: string) {
    NamesString(entities, "start_time", "start", s)
  }

  predicate NamesEnd(entities: seq<Field>, s: string) {
    NamesString(entities, "end_time", "end", s)
  }

  ghost predicate NamesNoStart(entities: seq<Field>) {
    forall s {:trigger NamesStart(entities, s)} :: !NamesStart(entities, s)
  }

  ghost predicate NamesNoEnd(entities: seq<Field>) {
    forall s {:trigger NamesEnd(entities, s)} :: !NamesEnd(entities, s)
  }

  /** The minutes a new event lasts: a positive number the intent names, or the default. */
  ghost predicate Lasts(entities: seq<Field>, default: int, minutes: int) {
    if exists n :: n >= 1 && Lookup(entities, "duration_minutes") == Some(Int(n))
    then Lookup(entities, "duration_minutes") == Some(Int(minutes))
    else minutes == default
  }

  lemma {:induction false} EntityMeans(intent: Intent, first: string, second: string, s: string)
    ensures Entity(intent, first, second) == Str(s) <==> NamesString(intent.entities, first, second, s)
  {
    TruthyMeans(GetOr(intent.entities, first, Null));
  }

  lemma {:induction false} StartMeans(intent: Intent)
    ensures var v := Entity(intent, "start_time", "start");
            if v.Str? then NamesStart(intent.entities, v.s) else NamesNoStart(intent.entities)
    ensures forall s {:trigger NamesStart(intent.entities, s)} :: NamesStart(intent.entities, s) ==>
              Entity(intent, "start_time", "start") == Str(s)
  {
    forall s ensures NamesStart(intent.entities, s) <==> Entity(intent, "start_time", "start") == Str(s) {
      EntityMeans(intent, "start_time", "start", s);
    }
  }

  lemma {:induction false} EndMeans(intent: Intent)
    ensures var v := Entity(intent, "end_time", "end");
            if v.Str? then NamesEnd(intent.entities, v.s) else NamesNoEnd(intent.entities)
    ensures forall s {:trigger NamesEnd(intent.entities, s)} :: NamesEnd(intent.entities, s) ==>
              Entity(intent, "end_time", "end") == Str(s)
  {
    forall s ensures NamesEnd(intent.entities, s) <==> Entity(intent, "end_time", "end") == Str(s) {
      EntityMeans(intent, "end_time", "end", s);
    }
  }

  lemma {:induction false} DurationMeans(intent: Intent, request: Request, minutes: int)
    ensures Duration(intent, request) == minutes <==> Lasts(intent.entities, request.duration, minutes)
  {
  }

  // ---------- new events ----------

  /** The argument is this time: that of the intent, or without one that of the plan. */
  ghost predicate IsStart(arguments: seq<Field>, entities: seq<Field>, v: Option<Value>) {
    if NamesNoStart(entities) then v == Lookup(arguments, "start")
    else v.Some? && v.value.Str? && NamesStart(entities, v.value.s)
  }

  /** Only a start is known, as the plan has it. */
  predicate LacksEnd(arguments: seq<Field>) {
    Has(arguments, "start") && !Has(arguments, "end")
  }

  /** `end` is what the intent's start leads to, or its failure. */
  ghost predicate FollowsNamed(entities: seq<Field>, request: Request, end: Result<string, Fault>) {
    exists s, n {:trigger NamesStart(entities, s), Lasts(entities, request.duration, n)} ::
      NamesStart(entities, s) && Lasts(entities, request.duration, n) && request.endAfter(s, n) == end
  }

  /** `end` is what the plan's start leads to, or its failure: a start that is no string is a bad value. */
  predicate FollowsPlanned(arguments: seq<Field>, request: Request, end: Result<string, Fault>) {
    var v := Lookup(arguments, "start");
    v.Some? && end == if v.value.Str? then request.endAfter(v.value.s, request.duration) else Err(BadValue)
  }

  /** An end has to be computed, and comes out so. */
  ghost predicate IsComputedEnd(arguments: seq<Field>, entities: seq<Field>, request: Request,
                                end: Result<string, Fault>) {
    if NamesNoStart(entities) then LacksEnd(arguments) && FollowsPlanned(arguments, request, end)
    else NamesNoEnd(entities) && FollowsNamed(entities, request, end)
  }

  /** The argument is this time: computed, or the intent's beside its start, or the plan's. */
  ghost predicate IsEnd(arguments: seq<Field>, entities: seq<Field>, request: Request, v: Option<Value>) {
    || (v.Some? && v.value.Str? && IsComputedEnd(arguments, entities, request, Ok(v.value.s)))
    || (!NamesNoStart(entities) && v.Some? && v.value.Str? && NamesEnd(entities, v.value.s))
    || (NamesNoStart(entities) && !LacksEnd(arguments) && v == Lookup(arguments, "end"))
  }

  /** The argument is the intent's list of attendees, or its one attendee, or the plan's attendees. */
  ghost predicate AreAttendees(arguments: seq<Field>, entities: seq<Field>, v: Option<Value>) {
    var named, email := Lookup(entities, "attendees"), Lookup(entities, "attendee_email");
    if named.Some? && AreNames(named.value) then v == named
    else if email.Some? && email.value.Str? then v == Some(Arr([email.value]))
    else v == Lookup(arguments, "attendees")
  }

  /** A list of non-empty strings. */
  ghost predicate AreNames(v: Value) {
    v.Arr? && forall x {:trigger x in v.items} :: x in v.items ==> exists s {:trigger Str(s)} :: x == Str(s) && s != ""
  }

  predicate IsEventKey(k: string) {
    k == "start" || k == "end" || k == "attendees" || k == "timezone" || k == "create_google_meet"
  }

  ghost predicate HasTimes(arguments: seq<Field>, intent: Intent, request: Request, fields: seq<Field>) {
    && IsStart(arguments, intent.entities, Lookup(fields, "start"))
    && IsEnd(arguments, intent.entities, request, Lookup(fields, "end"))
  }

  ghost predicate HasAttendees(arguments: seq<Field>, intent: Intent, fields: seq<Field>) {
    AreAttendees(arguments, intent.entities, Lookup(fields, "attendees"))
  }

  ghost predicate HasSettings(request: Request, fields: seq<Field>) {
    && Lookup(fields, "timezone") == Some(Str(request.timezone))
    && Lookup(fields, "create_google_meet") == Some(Bool(request.asksForMeet))
  }

  ghost predicate KeepsOthers(arguments: seq<Field>, fields: seq<Field>) {
    forall k :: !IsEventKey(k) ==> Lookup(fields, k) == Lookup(arguments, k)
  }

  ghost predicate IsEvent(arguments: seq<Field>, intent: Intent, request: Request, fields: seq<Field>) {
    && HasTimes(arguments, intent, request, fields)
    && HasAttendees(arguments, intent, fields)
    && HasSettings(request, fields)
    && KeepsOthers(arguments, fields)
  }

  lemma {:induction false} EventStartMeans(arguments: seq<Field>, intent: Intent)
    ensures IsStart(arguments, intent.entities, EventStart(arguments, intent))
  {
    StartMeans(intent);
  }

  lemma {:induction false} NamedEndMeans(intent: Intent, request: Request, end: Result<string, Fault>)
    requires Entity(intent, "start_time", "start").Str?
    ensures FollowsNamed(intent.entities, request, end) <==>
            EndAfter(request, Entity(intent, "start_time", "start"), Duration(intent, request)) == end
  {
    StartMeans(intent);
    var s, n := Entity(intent, "start_time", "start").s, Duration(intent, request);
    DurationMeans(intent, request, n);
    forall m ensures Lasts(intent.entities, request.duration, m) <==> m == n {
      DurationMeans(intent, request, m);
    }
    assert NamesStart(intent.entities, s) && Lasts(intent.entities, request.duration, n);
  }

  lemma {:induction false} EventEndMeans(arguments: seq<Field>, intent: Intent, request: Request)
    ensures var end := EventEnd(arguments, intent, request);
            if end.Ok? then IsEnd(arguments, intent.entities, request, end.value)
            else IsComputedEnd(arguments, intent.entities, request, Err(end.error))
  {
    StartMeans(intent);
    EndMeans(intent);
    var start := Entity(intent, "start_time", "start");
    if start.Str? {
      NamedEndMeans(intent, request, EndAfter(request, start, Duration(intent, request)));
    }
  }

  lemma {:induction false} EndFailsIff(arguments: seq<Field>, intent: Intent, request: Request, fault: Fault)
    ensures EventEnd(arguments, intent, request) == Err(fault) <==>
            IsComputedEnd(arguments, intent.entities, request, Err(fault))
  {
    StartMeans(intent);
    EndMeans(intent);
    if Entity(intent, "start_time", "start").Str? {
      NamedEndMeans(intent, request, Err(fault));
    }
  }

  lemma {:induction false} NamesAreStrings(v: Value)
    ensures IsStringList(v) <==> AreNames(v)
  {
    if v.Arr? {
      forall i | 0 <= i < |v.items| && v.items[i].Str? && v.items[i].s != ""
        ensures exists s {:trigger Str(s)} :: v.items[i] == Str(s) && s != ""
      {
        assert v.items[i] == Str(v.items[i].s);
      }
      assert forall i :: 0 <= i < |v.items| ==> v.items[i] in v.items;
    }
  }

  lemma {:induction false} AttendeesMean(arguments: seq<Field>, intent: Intent)
    ensures AreAttendees(arguments, intent.entities,
                         if Attendees(intent).Some? then Attendees(intent) else Lookup(arguments, "attendees"))
  {
    NamesAreStrings(GetOr(intent.entities, "attendees", Null));
  }

  lemma {:induction false} EventKeysDiffer()
    ensures "start" != "timezone" && "start" != "create_google_meet" && "start" != "attendees"
    ensures "end" != "timezone" && "end" != "create_google_meet" && "end" != "attendees" && "end" != "start"
    ensures "attendees" != "timezone" && "attendees" != "create_google_meet" && "create_google_meet" != "timezone"
  {
    assert |"start"| == 5 && |"timezone"| == 8 && |"create_google_meet"| == 18 && |"attendees"| == 9 && |"end"| == 3;
  }

  ghost predicate HasEventArguments(arguments: seq<Field>, intent: Intent, request: Request, fields: seq<Field>)
    requires EventEnd(arguments, intent, request).Ok?
  {
    forall k :: Lookup(fields, k) == EventArgument(arguments, intent, request, k)
  }

  lemma {:induction false} EventTimesMean(arguments: seq<Field>, intent: Intent, request: Request, fields: seq<Field>)
    requires EventEnd(arguments, intent, request).Ok? && HasEventArguments(arguments, intent, request, fields)
    ensures HasTimes(arguments, intent, request, fields)
  {
    EventStartMeans(arguments, intent);
    EventEndMeans(arguments, intent, request);
    EventTimesAreSet(arguments, intent, request, fields);
  }

  lemma {:induction false} EventTimesAreSet(arguments: seq<Field>, intent: Intent, request: Request, fields: seq<Field>)
    requires EventEnd(arguments, intent, request).Ok? && HasEventArguments(arguments, intent, request, fields)
    ensures Lookup(fields, "start") == EventStart(arguments, intent)
    ensures Lookup(fields, "end") == EventEnd(arguments, intent, request).value
  {
    EventKeysDiffer();
  }

  lemma {:induction false} EventAttendeesMean(arguments: seq<Field>, intent: Intent, request: Request,
                                              fields: seq<Field>)
    requires EventEnd(arguments, intent, request).Ok? && HasEventArguments(arguments, intent, request, fields)
    ensures HasAttendees(arguments, intent, fields)
  {
    EventKeysDiffer();
    AttendeesMean(arguments, intent);
    assert Lookup(fields, "attendees") ==
           if Attendees(intent).Some? then Attendees(intent) else Lookup(arguments, "attendees");
  }

  lemma {:induction false} EventSettingsMean(arguments: seq<Field>, intent: Intent, request: Request,
                                             fields: seq<Field>)
    requires EventEnd(arguments, intent, request).Ok? && HasEventArguments(arguments, intent, request, fields)
    ensures HasSettings(request, fields)
  {
    EventKeysDiffer();
  }

  lemma {:induction false} OtherArgumentsMean(arguments: seq<Field>, intent: Intent, request: Request,
                                              fields: seq<Field>)
    requires EventEnd(arguments, intent, request).Ok? && HasEventArguments(arguments, intent, request, fields)
    ensures KeepsOthers(arguments, fields)
  {
  }

  lemma {:induction false} EventMeans(arguments: seq<Field>, intent: Intent, request: Request, fields: seq<Field>)
    requires EventEnd(arguments, intent, request).Ok? && HasEventArguments(arguments, intent, request, fields)
    ensures IsEvent(arguments, intent, request, fields)
  {
    EventTimesMean(arguments, intent, request, fields);
    EventAttendeesMean(arguments, intent, request, fields);
    EventSettingsMean(arguments, intent, request, fields);
    OtherArgumentsMean(arguments, intent, request, fields);
  }

  // ---------- searches ----------

  ghost predicate NamesNoRange(entities: seq<Field>) {
    forall start, end {:trigger Spans(entities, start, end)} :: !Spans(entities, start, end)
  }

  /** The argument is a timestamp up to its first `T`. */
  predicate IsDayOf(timestamp: string, v: Option<Value>) {
    && v.Some? && v.value.Str? && v.value.s <= timestamp && 'T' !in v.value.s
    && (v.value.s == timestamp || timestamp[|v.value.s|] == 'T')
  }

  /** Other spellings of a range. */
  predicate IsAlias(k: string) {
    || k == "date_range" || k == "time_range" || k == "start_date" || k == "end_date"
    || k == "time_minimum" || k == "time_maximum"
  }

  ghost predicate SameArguments(arguments: seq<Field>, fields: seq<Field>) {
    forall k :: Lookup(fields, k) == Lookup(arguments, k)
  }

  /** The search's own two bounds aside, the other spellings of a range are gone and nothing else changes. */
  ghost predicate DropsAliases(arguments: seq<Field>, fields: seq<Field>, low: string, high: string) {
    forall k :: k != low && k != high ==> Lookup(fields, k) == if IsAlias(k) then None else Lookup(arguments, k)
  }

  /** A mail search covers the days of the intent's range. */
  ghost predicate IsMailSearch(arguments: seq<Field>, intent: Intent, fields: seq<Field>) {
    && (NamesNoRange(intent.entities) ==> SameArguments(arguments, fields))
    && forall start, end {:trigger Spans(intent.entities, start, end)} :: Spans(intent.entities, start, end) ==>
         && IsDayOf(start, Lookup(fields, "date_from")) && IsDayOf(end, Lookup(fields, "date_to"))
         && DropsAliases(arguments, fields, "date_from", "date_to")
  }

  /** A file search covers modifications within the intent's range. */
  ghost predicate IsFileSearch(arguments: seq<Field>, intent: Intent, fields: seq<Field>) {
    && (NamesNoRange(intent.entities) ==> SameArguments(arguments, fields))
    && forall start, end {:trigger Spans(intent.entities, start, end)} :: Spans(intent.entities, start, end) ==>
         && Lookup(fields, "modified_after") == Some(Str(start)) && Lookup(fields, "modified_before") == Some(Str(end))
         && DropsAliases(arguments, fields, "modified_after", "modified_before")
  }

  /** Where a calendar search starts by itself: now, when the next event is asked for. */
  function OwnStart(arguments: seq<Field>, request: Request): Option<Value> {
    if request.asksForNextEvent then Some(Str(request.now)) else Lookup(arguments, "time_min")
  }

  /** The argument is the start of a range, or the search's own start if that is later. */
  predicate IsLater(own: Option<Value>, start: string, request: Request, v: Option<Value>) {
    && v.Some? && v.value.Str?
    && if own.None? then v.value.s == start
       else own.value.Str? && request.later(own.value.s, start) == Ok(v.value.s)
  }

  /** The two starts cannot be compared: an own start that is no string, or that is no timestamp. */
  predicate FailsToCompare(own: Option<Value>, start: string, request: Request, fault: Fault) {
    && own.Some?
    && if own.value.Str? then request.later(own.value.s, start) == Err(fault) else fault == Crash
  }

  predicate IsEventSearchKey(k: string) {
    k == "time_min" || k == "time_max" || k == "max_results"
  }

  /** A calendar search for the next event has one result. */
  predicate AsksForOne(arguments: seq<Field>, request: Request, fields: seq<Field>) {
    Lookup(fields, "max_results") ==
    if request.asksForNextEvent then Some(Int(1)) else Lookup(arguments, "max_results")
  }

  /** A calendar search without a range. */
  ghost predicate SearchesOpenly(arguments: seq<Field>, request: Request, fields: seq<Field>) {
    && Lookup(fields, "time_min") == OwnStart(arguments, request)
    && Lookup(fields, "time_max") == Lookup(arguments, "time_max")
    && forall k :: !IsEventSearchKey(k) ==> Lookup(fields, k) == Lookup(arguments, k)
  }

  /** A calendar search within a range, but not before its own start. */
  ghost predicate SearchesWithin(arguments: seq<Field>, request: Request, start: string, end: string,
                                 fields: seq<Field>) {
    && IsLater(OwnStart(arguments, request), start, request, Lookup(fields, "time_min"))
    && Lookup(fields, "time_max") == Some(Str(end))
    && forall k :: !IsEventSearchKey(k) ==> Lookup(fields, k) == if IsAlias(k) then None else Lookup(arguments, k)
  }

  ghost predicate IsEventSearch(arguments: seq<Field>, intent: Intent, request: Request, fields: seq<Field>) {
    && AsksForOne(arguments, request, fields)
    && (NamesNoRange(intent.entities) ==> SearchesOpenly(arguments, request, fields))
    && forall start, end {:trigger Spans(intent.entities, start, end)} :: Spans(intent.entities, start, end) ==>
         SearchesWithin(arguments, request, start, end, fields)
  }

  predicate IsCalled(service: Service, name: Value) {
    || (service == Gmail && name == Str("gmail"))
    || (service == Calendar && name == Str("google_calendar"))
    || (service == Drive && name == Str("google_drive"))
  }

  /** The names of the services other than the index, each in its turn. */
  predicate AreNamed(services: seq<Service>, names: seq<Value>) {
    if services == [] then names == []
    else if services[|services| - 1] == Workspace then AreNamed(services[..|services| - 1], names)
    else
      && names != [] && IsCalled(services[|services| - 1], names[|names| - 1])
      && AreNamed(services[..|services| - 1], names[..|names| - 1])
  }

  /** A search of the index asks the request's query of the intent's services, unless the plan says otherwise. */
  ghost predicate IsIndexSearch(arguments: seq<Field>, intent: Intent, request: Request, fields: seq<Field>) {
    && IsQuery(arguments, request, fields)
    && AreServices(arguments, intent, fields)
    && (NamesNoRange(intent.entities) ==> KeepsBounds(arguments, fields) && KeepsFilters(arguments, false, fields))
    && forall start, end {:trigger Spans(intent.entities, start, end)} :: Spans(intent.entities, start, end) ==>
         && Lookup(fields, "date_from") == Some(Str(start)) && Lookup(fields, "date_to") == Some(Str(end))
         && KeepsFilters(arguments, true, fields)
  }

  predicate IsQuery(arguments: seq<Field>, request: Request, fields: seq<Field>) {
    Lookup(fields, "query") == if Has(arguments, "query") then Lookup(arguments, "query") else Some(Str(request.query))
  }

  predicate AreServices(arguments: seq<Field>, intent: Intent, fields: seq<Field>) {
    var v := Lookup(fields, "services");
    if Has(arguments, "services") then v == Lookup(arguments, "services")
    else if forall s :: s in intent.requiredServices ==> s == Workspace then v == None
    else v.Some? && v.value.Arr? && AreNamed(intent.requiredServices, v.value.items)
  }

  predicate KeepsBounds(arguments: seq<Field>, fields: seq<Field>) {
    && Lookup(fields, "date_from") == Lookup(arguments, "date_from")
    && Lookup(fields, "date_to") == Lookup(arguments, "date_to")
  }

  predicate IsIndexSearchKey(k: string) {
    k == "query" || k == "services" || k == "date_from" || k == "date_to"
  }

  ghost predicate KeepsFilters(arguments: seq<Field>, ranged: bool, fields: seq<Field>) {
    forall k :: !IsIndexSearchKey(k) ==>
      Lookup(fields, k) == if ranged && IsAlias(k) then None else Lookup(arguments, k)
  }

  // ---------- the searches' arguments are those ----------

  lemma {:induction false} RangeMeans(intent: Intent)
    ensures var range := DateRange(intent);
            && (range.None? <==> NamesNoRange(intent.entities))
            && forall start, end {:trigger Spans(intent.entities, start, end)} ::
                 Spans(intent.entities, start, end) <==> range == Some((start, end))
  {
    forall start, end ensures Spans(intent.entities, start, end) <==> DateRange(intent) == Some((start, end)) {
      DateRangeMeans(intent, start, end);
    }
    var range := DateRange(intent);
    assert range.Some? ==> Spans(intent.entities, range.value.0, range.value.1);
  }

  lemma {:induction false} DayPartMeans(timestamp: string)
    ensures IsDayOf(timestamp, Some(Str(DayPart(timestamp))))
  {
    if timestamp != "" && timestamp[0] != 'T' {
      DayPartMeans(timestamp[1..]);
    }
  }

  lemma {:induction false} AliasMeans(k: string)
    ensures k in ALIASES <==> IsAlias(k)
  {
  }

  lemma {:induction false} MailSearchMeans(arguments: seq<Field>, intent: Intent, request: Request,
                                           fields: seq<Field>)
    requires Constrainable(SearchEmails, arguments, intent, request).Ok?
    requires IsCanonical(SearchEmails, arguments, intent, request, fields)
    ensures IsMailSearch(arguments, intent, fields)
  {
    RangeMeans(intent);
    var range := DateRange(intent);
    if range.Some? {
      DayPartMeans(range.value.0);
      DayPartMeans(range.value.1);
      forall k ensures k in ALIASES <==> IsAlias(k) { AliasMeans(k); }
    }
  }

  lemma {:induction false} FileSearchMeans(arguments: seq<Field>, intent: Intent, request: Request,
                                           fields: seq<Field>)
    requires Constrainable(SearchFiles, arguments, intent, request).Ok?
    requires IsCanonical(SearchFiles, arguments, intent, request, fields)
    ensures IsFileSearch(arguments, intent, fields)
  {
    RangeMeans(intent);
    forall k ensures k in ALIASES <==> IsAlias(k) { AliasMeans(k); }
  }

  lemma {:induction false} EventSearchKeysDiffer()
    ensures "time_min" != "time_max" && "time_min" != "max_results" && "time_max" != "max_results"
    ensures !IsAlias("time_min") && !IsAlias("time_max") && !IsAlias("max_results")
  {
    assert "time_min"[6] == 'i' && "time_max"[6] == 'a' && |"max_results"| == 11;
  }

  /** Now, or the plan's own start, stands before the range is looked at. */
  lemma {:induction false} OwnStartMeans(arguments: seq<Field>, intent: Intent, request: Request)
    ensures DefaultArgument(SearchEvents, arguments, intent, request, "time_min") == OwnStart(arguments, request)
    ensures DefaultArgument(SearchEvents, arguments, intent, request, "time_max") == Lookup(arguments, "time_max")
    ensures DefaultArgument(SearchEvents, arguments, intent, request, "max_results")
            == if request.asksForNextEvent then Some(Int(1)) else Lookup(arguments, "max_results")
  {
    EventSearchKeysDiffer();
  }

  lemma {:induction false} OtherDefaultMeans(arguments: seq<Field>, intent: Intent, request: Request, k: string)
    requires !IsEventSearchKey(k)
    ensures DefaultArgument(SearchEvents, arguments, intent, request, k) == Lookup(arguments, k)
  {
  }

  lemma {:induction false} OpenSearchMeans(arguments: seq<Field>, intent: Intent, request: Request,
                                           fields: seq<Field>)
    requires DateRange(intent).None? && Constrainable(SearchEvents, arguments, intent, request).Ok?
    requires IsCanonical(SearchEvents, arguments, intent, request, fields)
    ensures SearchesOpenly(arguments, request, fields) && AsksForOne(arguments, request, fields)
  {
    OwnStartMeans(arguments, intent, request);
    forall k | !IsEventSearchKey(k) ensures Lookup(fields, k) == Lookup(arguments, k) {
      OtherDefaultMeans(arguments, intent, request, k);
    }
  }

  lemma {:induction false} OtherCanonicalMeans(arguments: seq<Field>, intent: Intent, request: Request,
                                               fields: seq<Field>, k: string)
    requires DateRange(intent).Some? && Constrainable(SearchEvents, arguments, intent, request).Ok?
    requires IsCanonical(SearchEvents, arguments, intent, request, fields) && !IsEventSearchKey(k)
    ensures Lookup(fields, k) == if IsAlias(k) then None else Lookup(arguments, k)
  {
    OtherDefaultMeans(arguments, intent, request, k);
    AliasMeans(k);
    assert Lookup(fields, k) == CanonicalArgument(SearchEvents, arguments, intent, request, k);
  }

  lemma {:induction false} SearchWithinMeans(arguments: seq<Field>, intent: Intent, request: Request,
                                             fields: seq<Field>)
    requires DateRange(intent).Some? && Constrainable(SearchEvents, arguments, intent, request).Ok?
    requires IsCanonical(SearchEvents, arguments, intent, request, fields)
    ensures var range := DateRange(intent).value; SearchesWithin(arguments, request, range.0, range.1, fields)
    ensures AsksForOne(arguments, request, fields)
  {
    OwnStartMeans(arguments, intent, request);
    EventSearchKeysDiffer();
    AliasMeans("max_results");
    forall k | !IsEventSearchKey(k)
      ensures Lookup(fields, k) == if IsAlias(k) then None else Lookup(arguments, k)
    {
      OtherCanonicalMeans(arguments, intent, request, fields, k);
    }
  }

  lemma {:induction false} EventSearchMeans(arguments: seq<Field>, intent: Intent, request: Request,
                                            fields: seq<Field>)
    requires Constrainable(SearchEvents, arguments, intent, request).Ok?
    requires IsCanonical(SearchEvents, arguments, intent, request, fields)
    ensures IsEventSearch(arguments, intent, request, fields)
  {
    RangeMeans(intent);
    if DateRange(intent).Some? {
      SearchWithinMeans(arguments, intent, request, fields);
    } else {
      OpenSearchMeans(arguments, intent, request, fields);
    }
  }

  lemma {:induction false} NamesInOrder(services: seq<Service>)
    ensures AreNamed(services, RequestedServices(services))
  {
    if services != [] {
      var n := |services| - 1;
      var before := RequestedServices(services[..n]);
      NamesInOrder(services[..n]);
      assert services == services[..n] + [services[n]];
      RequestedJoins(services[..n], services[n]);
      if services[n] == Workspace {
        assert RequestedServices(services) == before;
      } else {
        var name := Str(ServiceName(services[n]));
        assert RequestedServices(services) == before + [name];
        assert (before + [name])[..|before|] == before && IsCalled(services[n], name);
      }
    }
  }

  lemma {:induction false} NoneIsRequested(services: seq<Service>)
    ensures RequestedServices(services) == [] <==> forall s :: s in services ==> s == Workspace
  {
    if services != [] {
      NoneIsRequested(services[1..]);
      assert services == [services[0]] + services[1..];
    }
  }

  lemma {:induction false} RequestedJoins(services: seq<Service>, last: Service)
    ensures RequestedServices(services + [last]) ==
            RequestedServices(services) + if last == Workspace then [] else [Str(ServiceName(last))]
  {
    if services != [] {
      RequestedJoins(services[1..], last);
      assert (services + [last])[1..] == services[1..] + [last];
    }
  }

  lemma {:induction false} SearchKeysDiffer()
    ensures "query" != "services" && "query" != "date_from" && "query" != "date_to"
    ensures "services" != "date_from" && "services" != "date_to" && "date_from" != "date_to"
    ensures !IsAlias("query") && !IsAlias("services") && !IsAlias("date_from") && !IsAlias("date_to")
  {
    assert |"query"| == 5 && |"services"| == 8 && |"date_from"| == 9 && |"date_to"| == 7;
  }

  lemma {:induction false} QueryMeans(arguments: seq<Field>, intent: Intent, request: Request, fields: seq<Field>)
    requires Lookup(fields, "query") == SearchArgument(arguments, intent, request, "query")
    requires Lookup(fields, "services") == SearchArgument(arguments, intent, request, "services")
    ensures IsQuery(arguments, request, fields) && AreServices(arguments, intent, fields)
  {
    SearchKeysDiffer();
    NamesInOrder(intent.requiredServices);
    NoneIsRequested(intent.requiredServices);
  }

  lemma {:induction false} OtherSearchArgumentMeans(arguments: seq<Field>, intent: Intent, request: Request, k: string)
    requires k != "query" && k != "services"
    ensures SearchArgument(arguments, intent, request, k) == Lookup(arguments, k)
  {
  }

  lemma {:induction false} OpenIndexSearchMeans(arguments: seq<Field>, intent: Intent, request: Request,
                                                fields: seq<Field>)
    requires DateRange(intent).None? && Constrainable(SearchWorkspace, arguments, intent, request).Ok?
    requires IsCanonical(SearchWorkspace, arguments, intent, request, fields)
    ensures IsQuery(arguments, request, fields) && AreServices(arguments, intent, fields)
    ensures KeepsBounds(arguments, fields) && KeepsFilters(arguments, false, fields)
  {
    SearchKeysDiffer();
    QueryMeans(arguments, intent, request, fields);
    forall k | k != "query" && k != "services" ensures Lookup(fields, k) == Lookup(arguments, k) {
      OtherSearchArgumentMeans(arguments, intent, request, k);
    }
  }

  lemma {:induction false} RangedIndexSearchMeans(arguments: seq<Field>, intent: Intent, request: Request,
                                                  fields: seq<Field>)
    requires DateRange(intent).Some? && Constrainable(SearchWorkspace, arguments, intent, request).Ok?
    requires IsCanonical(SearchWorkspace, arguments, intent, request, fields)
    ensures IsQuery(arguments, request, fields) && AreServices(arguments, intent, fields)
    ensures KeepsFilters(arguments, true, fields)
    ensures Lookup(fields, "date_from") == Some(Str(DateRange(intent).value.0))
    ensures Lookup(fields, "date_to") == Some(Str(DateRange(intent).value.1))
  {
    SearchKeysDiffer();
    AliasMeans("query");
    AliasMeans("services");
    QueryMeans(arguments, intent, request, fields);
    forall k | !IsIndexSearchKey(k)
      ensures Lookup(fields, k) == if IsAlias(k) then None else Lookup(arguments, k)
    {
      AliasMeans(k);
      OtherSearchArgumentMeans(arguments, intent, request, k);
    }
  }

  lemma {:induction false} IndexSearchMeans(arguments: seq<Field>, intent: Intent, request: Request,
                                            fields: seq<Field>)
    requires Constrainable(SearchWorkspace, arguments, intent, request).Ok?
    requires IsCanonical(SearchWorkspace, arguments, intent, request, fields)
    ensures IsIndexSearch(arguments, intent, request, fields)
  {
    RangeMeans(intent);
    if DateRange(intent).Some? {
      RangedIndexSearchMeans(arguments, intent, request, fields);
    } else {
      OpenIndexSearchMeans(arguments, intent, request, fields);
    }
  }

  // ---------- one step ----------

  predicate IsOf(step: Step, service: Service, operation: string) {
    step.service == service && step.operation == operation
  }

  /** The step's arguments are what its kind of step makes of the intent and the plan's arguments. */
  ghost predicate MeetsIntent(step: Step, intent: Intent, request: Request, fields: seq<Field>)
    requires HasArguments(step)
  {
    var arguments := step.arguments.fields;
    if IsOf(step, Calendar, "create_event") then IsEvent(arguments, intent, request, fields)
    else if IsOf(step, Calendar, "search_events") then IsEventSearch(arguments, intent, request, fields)
    else if IsOf(step, Gmail, "search_emails") then IsMailSearch(arguments, intent, fields)
    else if IsOf(step, Drive, "search_files") then IsFileSearch(arguments, intent, fields)
    else if IsOf(step, Workspace, "workspace_search") then IsIndexSearch(arguments, intent, request, fields)
    else SameArguments(arguments, fields)
  }

  /**
   What stands in the way: the end of a new event cannot be computed, or a calendar search's own
   start cannot be compared with that of the intent's range.
   */
  ghost predicate CannotMeetIntent(step: Step, intent: Intent, request: Request, fault: Fault)
    requires HasArguments(step)
  {
    var arguments := step.arguments.fields;
    if IsOf(step, Calendar, "create_event") then
      IsComputedEnd(arguments, intent.entities, request, Err(fault))
    else
      && IsOf(step, Calendar, "search_events")
      && exists start, end {:trigger Spans(intent.entities, start, end)} ::
           Spans(intent.entities, start, end)
           && FailsToCompare(OwnStart(arguments, request), start, request, fault)
  }

  lemma {:induction false} KindMeans(step: Step)
    ensures KindOf(step.service, step.operation) ==
            if IsOf(step, Calendar, "create_event") then CreateEvent
            else if IsOf(step, Calendar, "search_events") then SearchEvents
            else if IsOf(step, Gmail, "search_emails") then SearchEmails
            else if IsOf(step, Drive, "search_files") then SearchFiles
            else if IsOf(step, Workspace, "workspace_search") then SearchWorkspace
            else Unconstrained
  {
  }

  /** A constrained step has the arguments that the intent and its kind ask for. */
  lemma {:induction false} ConstrainedStepMeetsIntent(step: Step, intent: Intent, request: Request, r: Step)
    requires CanonicalStep(step, intent, request, r)
    ensures MeetsIntent(step, intent, request, r.arguments.fields)
  {
    var arguments, fields := step.arguments.fields, r.arguments.fields;
    KindMeans(step);
    match KindOf(step.service, step.operation)
    case CreateEvent => EventMeans(arguments, intent, request, fields);
    case SearchEvents => EventSearchMeans(arguments, intent, request, fields);
    case SearchEmails => MailSearchMeans(arguments, intent, request, fields);
    case SearchFiles => FileSearchMeans(arguments, intent, request, fields);
    case SearchWorkspace => IndexSearchMeans(arguments, intent, request, fields);
    case Unconstrained =>
  }

  lemma {:induction false} EventSearchFailsIff(arguments: seq<Field>, intent: Intent, request: Request, fault: Fault)
    ensures Constrainable(SearchEvents, arguments, intent, request) == Err(fault) <==>
            exists start, end {:trigger Spans(intent.entities, start, end)} ::
              Spans(intent.entities, start, end)
              && FailsToCompare(OwnStart(arguments, request), start, request, fault)
  {
    RangeMeans(intent);
    OwnStartMeans(arguments, intent, request);
    var range := DateRange(intent);
    assert range.Some? ==> Spans(intent.entities, range.value.0, range.value.1);
  }

  /** A step cannot be constrained exactly when a time cannot be computed or compared. */
  lemma {:induction false} StepFailsIff(step: Step, intent: Intent, request: Request, fault: Fault)
    requires HasArguments(step)
    ensures StepConstrainable(step, intent, request) == Err(fault) <==>
            CannotMeetIntent(step, intent, request, fault)
  {
    var arguments := step.arguments.fields;
    KindMeans(step);
    EndFailsIff(arguments, intent, request, fault);
    EventSearchFailsIff(arguments, intent, request, fault);
  }
}
