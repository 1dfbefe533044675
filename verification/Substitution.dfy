/**
 What references mean, stated without the traversals that treat them: the objects a value
 holds them in, the value that replaces each of them, and why one of them fails.
 */
module Substitution {
  import opened Text
  import opened Json
  import opened References

  // ---------- the references inside a value ----------

  /** `o` is a `$step` object inside `v` that is not inside another one. */
  ghost predicate Holds(v: Value, o: seq<Field>)
    decreases v
  {
    match v
    case Obj(fields) =>
      if Has(fields, "$step") then o == fields
      else exists i :: 0 <= i < |fields| && Holds(fields[i].value, o)
    case Arr(items) => exists i :: 0 <= i < |items| && Holds(items[i], o)
    case _ => false
  }

  ghost predicate IsWhole(x: real) {
    exists n :: IsEqual(n, x)
  }

  predicate IsEqual(n: int, x: real) {
    n as real == x
  }

  /** A target that trims to an identifier, perhaps a list of strings and whole numbers as path, and nothing else. */
  ghost predicate IsSound(o: seq<Field>) {
    && (forall k :: Has(o, k) ==> k == "$step" || k == "path")
    && (exists target :: Lookup(o, "$step") == Some(Str(target)) && IsIdentifier(Trim(target)))
    && (Has(o, "path") ==>
          exists path: seq<Value> :: Lookup(o, "path") == Some(Arr(path)) && forall s :: s in path ==>
            s.Str? || s.Int? || s.Bool? || (s.Real? && IsWhole(s.x)))
  }

  /** The object names this step once its target is trimmed. */
  ghost predicate Names(o: seq<Field>, id: string) {
    exists target :: Lookup(o, "$step") == Some(Str(target)) && Trim(target) == id
  }

  lemma {:induction false} SegmentsAreStringsAndNumbers(path: seq<Value>)
    ensures (forall i :: 0 <= i < |path| ==> IsPathSegment(path[i])) <==>
            forall s :: s in path ==> s.Str? || s.Int? || s.Bool? || (s.Real? && IsWhole(s.x))
  {
    forall s: Value ensures IsPathSegment(s) <==>
      s.Str? || s.Int? || s.Bool? || (s.Real? && IsWhole(s.x))
    {
      if s.Real? {
        if IsWhole(s.x) {
          var n :| IsEqual(n, s.x);
          assert s.x.Floor == n;
        }
        assert IsEqual(s.x.Floor, s.x) <==> s.x.Floor as real == s.x;
      }
    }
    forall s | s in path ensures exists i :: 0 <= i < |path| && path[i] == s {}
  }

  /** Validation accepts exactly the sound objects, and yields the step they name. */
  lemma {:induction false} ValidatedIffSound(o: seq<Field>)
    requires Has(o, "$step")
    ensures ValidateReference(o).Some? <==> IsSound(o)
    ensures ValidateReference(o).Some? ==> forall id :: Names(o, id) <==> id == ValidateReference(o).value
  {
    var ref := ReferenceOf(o);
    forall k ensures Has(o, k) <==> exists i :: 0 <= i < |o| && o[i].key == k {}
    assert (forall i :: 0 <= i < |o| ==> o[i].key in {"$step", "path"}) <==>
           forall k :: Has(o, k) ==> k == "$step" || k == "path" by {
      forall i | 0 <= i < |o| ensures Has(o, o[i].key) {}
    }
    if ref.path.Arr? {
      SegmentsAreStringsAndNumbers(ref.path.items);
    }
  }

  /**
   The generator succeeds exactly on the values all of whose references are sound, and then it
   yields exactly the steps they name.
   */
  lemma {:induction false} FindIsExact(v: Value)
    ensures FindStepReferences(v).Some? <==> forall o :: Holds(v, o) ==> IsSound(o)
    ensures FindStepReferences(v).Some? ==>
              forall id :: id in FindStepReferences(v).value <==> exists o :: Holds(v, o) && Names(o, id)
    decreases v
  {
    match v
    case Obj(fields) =>
      if Has(fields, "$step") {
        ValidatedIffSound(fields);
        assert Holds(v, fields);
      } else {
        FindInFieldsIsExact(fields);
      }
    case Arr(items) => FindInItemsIsExact(items);
    case _ =>
  }

  ghost predicate FieldsHold(fields: seq<Field>, o: seq<Field>) {
    exists i :: 0 <= i < |fields| && Holds(fields[i].value, o)
  }

  ghost predicate ItemsHold(items: seq<Value>, o: seq<Field>) {
    exists i :: 0 <= i < |items| && Holds(items[i], o)
  }

  lemma {:induction false} FieldsHoldFirst(fields: seq<Field>, o: seq<Field>)
    requires fields != []
    ensures FieldsHold(fields, o) <==> Holds(fields[0].value, o) || FieldsHold(fields[1..], o)
  {
    var rest := fields[1..];
    if i :| 0 < i < |fields| && Holds(fields[i].value, o) {
      assert rest[i - 1] == fields[i];
    }
    if i :| 0 <= i < |rest| && Holds(rest[i].value, o) {
      assert fields[i + 1] == rest[i];
    }
  }

  lemma {:induction false} ItemsHoldFirst(items: seq<Value>, o: seq<Field>)
    requires items != []
    ensures ItemsHold(items, o) <==> Holds(items[0], o) || ItemsHold(items[1..], o)
  {
    var rest := items[1..];
    if i :| 0 < i < |items| && Holds(items[i], o) {
      assert rest[i - 1] == items[i];
    }
    if i :| 0 <= i < |rest| && Holds(rest[i], o) {
      assert items[i + 1] == rest[i];
    }
  }

  lemma {:induction false} FindInFieldsIsExact(fields: seq<Field>)
    ensures FindInFields(fields).Some? <==> forall o :: FieldsHold(fields, o) ==> IsSound(o)
    ensures FindInFields(fields).Some? ==>
              forall id :: id in FindInFields(fields).value <==> exists o :: FieldsHold(fields, o) && Names(o, id)
    decreases fields
  {
    if fields != [] {
      FindIsExact(fields[0].value);
      FindInFieldsIsExact(fields[1..]);
      forall o ensures FieldsHold(fields, o) <==> Holds(fields[0].value, o) || FieldsHold(fields[1..], o) {
        FieldsHoldFirst(fields, o);
      }
    }
  }

  lemma {:induction false} FindInItemsIsExact(items: seq<Value>)
    ensures FindInItems(items).Some? <==> forall o :: ItemsHold(items, o) ==> IsSound(o)
    ensures FindInItems(items).Some? ==>
              forall id :: id in FindInItems(items).value <==> exists o :: ItemsHold(items, o) && Names(o, id)
    decreases items
  {
    if items != [] {
      FindIsExact(items[0]);
      FindInItemsIsExact(items[1..]);
      forall o ensures ItemsHold(items, o) <==> Holds(items[0], o) || ItemsHold(items[1..], o) {
        ItemsHoldFirst(items, o);
      }
    }
  }

  // ---------- what replaces a reference ----------

  /** The path of a `$step` object, which may be left out. */
  ghost predicate HasPath(o: seq<Field>, path: seq<Value>) {
    if Has(o, "path") then Lookup(o, "path") == Some(Arr(path)) else path == []
  }

  /** Following the object's path from the data of the step that it names, untrimmed, ends at `r`. */
  ghost predicate RefersTo(digits: Digits, o: seq<Field>, data: map<string, Value>, r: Value) {
    exists target, path ::
      && Lookup(o, "$step") == Some(Str(target)) && HasPath(o, path)
      && target in data && LeadsTo(digits, data[target], path, r)
  }

  /** `r` is `v` with every reference in it replaced by what it refers to, and all else as it was. */
  ghost predicate Substitutes(digits: Digits, v: Value, data: map<string, Value>, r: Value)
    decreases v
  {
    match v
    case Obj(fields) =>
      if Has(fields, "$step") then RefersTo(digits, fields, data, r)
      else r.Obj? && SubstitutesEach(digits, fields, data, r.fields)
    case Arr(items) =>
      && r.Arr? && |r.items| == |items|
      && forall i :: 0 <= i < |items| ==> Substitutes(digits, items[i], data, r.items[i])
    case _ => r == v
  }

  /** Field by field, under the same keys. */
  ghost predicate SubstitutesEach(digits: Digits, fields: seq<Field>, data: map<string, Value>, r: seq<Field>)
    decreases fields
  {
    |r| == |fields| && forall i :: 0 <= i < |fields| ==> SubstitutesIn(digits, fields[i], data, r[i])
  }

  ghost predicate SubstitutesIn(digits: Digits, f: Field, data: map<string, Value>, r: Field)
    decreases f
  {
    r.key == f.key && Substitutes(digits, f.value, data, r.value)
  }

  lemma {:induction false} SubstitutesFirst(digits: Digits, fields: seq<Field>, data: map<string, Value>,
                                            r: seq<Field>)
    requires fields != [] && r != []
    ensures SubstitutesEach(digits, fields, data, r) <==>
            SubstitutesIn(digits, fields[0], data, r[0]) && SubstitutesEach(digits, fields[1..], data, r[1..])
  {
    assert forall i :: 0 < i < |fields| ==> fields[i] == fields[1..][i - 1];
    assert forall i :: 0 <= i < |fields| - 1 ==> fields[1..][i] == fields[i + 1];
  }

  lemma {:induction false} ReferenceIsReplaced(digits: Digits, o: seq<Field>, data: map<string, Value>, r: Value)
    requires Has(o, "$step")
    ensures ResolveReference(digits, ReferenceOf(o), data) == Ok(r) <==> RefersTo(digits, o, data, r)
  {
    var ref := ReferenceOf(o);
    if ref.target.Str? && ref.path.Arr? && ref.target.s in data {
      WalkFindsTarget(digits, ref.target.s, data[ref.target.s], ref.path.items, [], r);
      assert HasPath(o, ref.path.items);
    }
  }

  /** Resolution succeeds with exactly the value in which every reference is replaced. */
  lemma {:induction false} ResolutionSubstitutes(digits: Digits, v: Value, data: map<string, Value>, r: Value)
    ensures Resolve(digits, v, data) == Ok(r) <==> Substitutes(digits, v, data, r)
    decreases v
  {
    match v
    case Obj(fields) =>
      if Has(fields, "$step") {
        ReferenceIsReplaced(digits, fields, data, r);
      } else if r.Obj? {
        FieldsAreSubstituted(digits, fields, data, r.fields);
      }
    case Arr(items) =>
      if r.Arr? {
        ItemsAreSubstituted(digits, items, data, r.items);
      }
    case _ =>
  }

  lemma {:induction false} FieldsAreSubstituted(digits: Digits, fields: seq<Field>, data: map<string, Value>,
                                                r: seq<Field>)
    ensures ResolveFields(digits, fields, data) == Ok(r) <==> SubstitutesEach(digits, fields, data, r)
    decreases fields
  {
    if fields != [] && |r| == |fields| {
      ResolutionSubstitutes(digits, fields[0].value, data, r[0].value);
      FieldsAreSubstituted(digits, fields[1..], data, r[1..]);
      SubstitutesFirst(digits, fields, data, r);
      assert r == [r[0]] + r[1..];
    }
    ResolvedAreAsMany(digits, fields, data);
  }

  lemma {:induction false} ResolvedAreAsMany(digits: Digits, fields: seq<Field>, data: map<string, Value>)
    ensures ResolveFields(digits, fields, data).Ok? ==> |ResolveFields(digits, fields, data).value| == |fields|
  {
    if fields != [] {
      ResolvedAreAsMany(digits, fields[1..], data);
    }
  }

  lemma {:induction false} ResolvedItemsAreAsMany(digits: Digits, items: seq<Value>, data: map<string, Value>)
    ensures ResolveItems(digits, items, data).Ok? ==> |ResolveItems(digits, items, data).value| == |items|
  {
    if items != [] {
      ResolvedItemsAreAsMany(digits, items[1..], data);
    }
  }

  lemma {:induction false} ItemsAreSubstituted(digits: Digits, items: seq<Value>, data: map<string, Value>,
                                               r: seq<Value>)
    ensures ResolveItems(digits, items, data) == Ok(r) <==>
            |r| == |items| && forall i :: 0 <= i < |items| ==> Substitutes(digits, items[i], data, r[i])
    decreases items
  {
    if items != [] && |r| == |items| {
      ResolutionSubstitutes(digits, items[0], data, r[0]);
      ItemsAreSubstituted(digits, items[1..], data, r[1..]);
      assert r == [r[0]] + r[1..];
      assert forall i :: 0 < i < |items| ==> items[i] == items[1..][i - 1] && r[i] == r[1..][i - 1];
      assert forall i :: 0 <= i < |items[1..]| ==> items[1..][i] == items[i + 1] && r[1..][i] == r[i + 1];
    }
    ResolvedItemsAreAsMany(digits, items, data);
  }

  // ---------- why a reference fails ----------

  /** How the resolver spells a segment in its errors: an index of a list as a number. */
  ghost predicate SpelledAs(digits: Digits, node: Value, segment: Value, spelled: Value) {
    if node.Arr? && segment.Str? && (segment.s == "first" || segment.s == "next") then spelled == Int(0)
    else if node.Arr? && segment.Str? && digits.isDigit(segment.s) then
      exists n :: digits.toInt(segment.s) == Some(n) && spelled == Int(n)
    else spelled == segment
  }

  /** The kind of error at a node that a segment, so spelled, selects nothing of. */
  ghost predicate Stops(node: Value, spelled: Value, e: ResolveError) {
    match node
    case Obj(fields) => if spelled.Str? then e.FieldMissing? && !Has(fields, spelled.s) else e.ShapeMismatch?
    case Arr(items) => if spelled.Int? then e.ElementMissing? && !(0 <= spelled.n < |items|) else e.ShapeMismatch?
    case _ => e.ShapeMismatch?
  }

  /** `trace` spells the path as far as it leads, and one segment further, where it stops. */
  ghost predicate StopsAfter(digits: Digits, root: Value, path: seq<Value>, trace: seq<Value>, e: ResolveError) {
    && 1 <= |trace| <= |path|
    && (forall i :: 0 <= i < |trace| ==> SpelledAt(digits, root, path, i, trace[i]))
    && StopsBehind(digits, root, path[..|trace| - 1], trace[|trace| - 1], e)
  }

  ghost predicate StopsBehind(digits: Digits, root: Value, path: seq<Value>, spelled: Value, e: ResolveError) {
    exists node :: LeadsTo(digits, root, path, node) && Stops(node, spelled, e)
  }

  ghost predicate SpelledAt(digits: Digits, root: Value, path: seq<Value>, i: nat, spelled: Value)
    requires i < |path|
  {
    exists node :: LeadsTo(digits, root, path[..i], node) && SpelledAs(digits, node, path[i], spelled)
  }

  lemma {:induction false} LeadsOnFrom(digits: Digits, root: Value, path: seq<Value>, child: Value, i: nat, node: Value)
    requires 0 < i <= |path| && Selects(digits, root, path[0], child)
    requires LeadsTo(digits, child, path[1..][..i - 1], node)
    ensures LeadsTo(digits, root, path[..i], node)
  {
    assert path[..i][1..] == path[1..][..i - 1];
    LeadsOn(digits, root, path[..i], node);
  }

  lemma {:induction false} StopsAfterFirst(digits: Digits, root: Value, path: seq<Value>, child: Value,
                                           first: Value, rest: seq<Value>, e: ResolveError)
    requires path != [] && Selects(digits, root, path[0], child) && SpelledAs(digits, root, path[0], first)
    requires StopsAfter(digits, child, path[1..], rest, e)
    ensures StopsAfter(digits, root, path, [first] + rest, e)
  {
    var trace := [first] + rest;
    forall i | 0 <= i < |trace| ensures SpelledAt(digits, root, path, i, trace[i]) {
      if i == 0 {
        NoPathStays(digits, root, root);
        assert path[..0] == [];
      } else {
        assert SpelledAt(digits, child, path[1..], i - 1, rest[i - 1]);
        var node :| LeadsTo(digits, child, path[1..][..i - 1], node)
                    && SpelledAs(digits, node, path[1..][i - 1], rest[i - 1]);
        LeadsOnFrom(digits, root, path, child, i, node);
      }
    }
    assert StopsBehind(digits, child, path[1..][..|rest| - 1], rest[|rest| - 1], e);
    var node :| LeadsTo(digits, child, path[1..][..|rest| - 1], node) && Stops(node, rest[|rest| - 1], e);
    LeadsOnFrom(digits, root, path, child, |rest|, node);
    assert trace[|rest|] == rest[|rest| - 1];
  }

  /** One segment that selects nothing. */
  lemma {:induction false} DescendStops(digits: Digits, stepId: string, root: Value, path: seq<Value>,
                                        traversed: seq<Value>)
    returns (at: Value)
    requires path != [] && Descend(digits, stepId, root, path[0], traversed).Err?
    requires !Descend(digits, stepId, root, path[0], traversed).error.Malformed?
    ensures var e := Descend(digits, stepId, root, path[0], traversed).error;
            && !e.StepMissing? && e.stepId == stepId && e.path == traversed + [at]
            && StopsAfter(digits, root, path, [at], e)
  {
    at := NormalizeSegment(digits, root, path[0]).value;
    NoPathStays(digits, root, root);
    assert path[..0] == [];
    assert SpelledAt(digits, root, path, 0, at);
  }

  lemma {:induction false} DescendSpells(digits: Digits, stepId: string, root: Value, segment: Value,
                                         traversed: seq<Value>)
    requires Descend(digits, stepId, root, segment, traversed).Ok?
    ensures SpelledAs(digits, root, segment, NormalizeSegment(digits, root, segment).value)
    ensures Selects(digits, root, segment, Descend(digits, stepId, root, segment, traversed).value)
  {
    DescendSelects(digits, stepId, root, segment, traversed, Descend(digits, stepId, root, segment, traversed).value);
  }

  /** The error names the step, and the path so far, which ends where it stops. */
  ghost predicate Reports(digits: Digits, stepId: string, root: Value, path: seq<Value>, traversed: seq<Value>,
                          trace: seq<Value>, e: ResolveError)
  {
    && !e.StepMissing? && !e.Malformed? && e.stepId == stepId && e.path == traversed + trace
    && StopsAfter(digits, root, path, trace, e)
  }

  lemma {:induction false} ReportsAfterFirst(digits: Digits, stepId: string, root: Value, path: seq<Value>,
                                             traversed: seq<Value>, child: Value, first: Value, rest: seq<Value>,
                                             e: ResolveError)
    requires path != [] && Selects(digits, root, path[0], child) && SpelledAs(digits, root, path[0], first)
    requires Reports(digits, stepId, child, path[1..], traversed + [first], rest, e)
    ensures Reports(digits, stepId, root, path, traversed, [first] + rest, e)
  {
    StopsAfterFirst(digits, root, path, child, first, rest, e);
    assert traversed + [first] + rest == traversed + ([first] + rest);
  }

  /** A walk that fails otherwise than malformed says how far the path leads, and why no further. */
  lemma {:induction false} WalkStops(digits: Digits, stepId: string, root: Value, path: seq<Value>,
                                     traversed: seq<Value>)
    returns (trace: seq<Value>)
    requires Walk(digits, stepId, root, path, traversed).Err?
    requires !Walk(digits, stepId, root, path, traversed).error.Malformed?
    ensures Reports(digits, stepId, root, path, traversed, trace, Walk(digits, stepId, root, path, traversed).error)
    decreases |path|
  {
    var next := Descend(digits, stepId, root, path[0], traversed);
    if next.Err? {
      var at := DescendStops(digits, stepId, root, path, traversed);
      trace := [at];
    } else {
      var at := NormalizeSegment(digits, root, path[0]).value;
      DescendSpells(digits, stepId, root, path[0], traversed);
      var rest := WalkStops(digits, stepId, next.value, path[1..], traversed + [at]);
      trace := [at] + rest;
      ReportsAfterFirst(digits, stepId, root, path, traversed, next.value, at, rest,
                        Walk(digits, stepId, root, path, traversed).error);
    }
  }

  /** Why the reference in an object fails, and with which details. */
  ghost predicate FailsWith(digits: Digits, ref: Reference, data: map<string, Value>, e: ResolveError) {
    if !ref.target.Str? || !ref.path.Arr? then e == Malformed
    else if ref.target.s !in data then e == StepMissing(ref.target.s, ref.path.items)
    else
      var root, path := data[ref.target.s], ref.path.items;
      if e.Malformed? then HitsUnreadable(digits, root, path)
      else !e.StepMissing? && e.stepId == ref.target.s && StopsAfter(digits, root, path, e.path, e)
  }

  lemma {:induction false} ReferenceFailsWith(digits: Digits, ref: Reference, data: map<string, Value>)
    requires ResolveReference(digits, ref, data).Err?
    ensures FailsWith(digits, ref, data, ResolveReference(digits, ref, data).error)
  {
    if ref.target.Str? && ref.path.Arr? && ref.target.s in data {
      var root, path := data[ref.target.s], ref.path.items;
      WalkIsMalformedIff(digits, ref.target.s, root, path, []);
      if !Walk(digits, ref.target.s, root, path, []).error.Malformed? {
        var trace := WalkStops(digits, ref.target.s, root, path, []);
        assert [] + trace == trace;
      }
    }
  }

  /** The error of a value is that of the first of its references, in order, that refers to nothing. */
  ghost predicate FirstFails(digits: Digits, v: Value, data: map<string, Value>, e: ResolveError) {
    var refs := AllReferences(v);
    exists i ::
      && 0 <= i < |refs| && FailsWith(digits, refs[i], data, e)
      && forall j :: 0 <= j < i ==> ReferenceLeads(digits, refs[j], data)
  }

  ghost predicate ReferenceLeads(digits: Digits, ref: Reference, data: map<string, Value>) {
    && ref.target.Str? && ref.path.Arr? && ref.target.s in data
    && exists r :: LeadsTo(digits, data[ref.target.s], ref.path.items, r)
  }

  lemma {:induction false} FirstFailureIsFirst(digits: Digits, refs: seq<Reference>, data: map<string, Value>)
    returns (i: nat)
    requires FirstFailure(digits, refs, data).Some?
    ensures i < |refs| && ResolveReference(digits, refs[i], data) == Err(FirstFailure(digits, refs, data).value)
    ensures forall j :: 0 <= j < i ==> ResolveReference(digits, refs[j], data).Ok?
  {
    if ResolveReference(digits, refs[0], data).Err? {
      i := 0;
    } else {
      var k := FirstFailureIsFirst(digits, refs[1..], data);
      i := k + 1;
      assert forall j :: 0 < j < i ==> refs[j] == refs[1..][j - 1];
    }
  }

  lemma {:induction false} ResolutionFailsWith(digits: Digits, v: Value, data: map<string, Value>)
    requires Resolve(digits, v, data).Err?
    ensures FirstFails(digits, v, data, Resolve(digits, v, data).error)
  {
    var refs := AllReferences(v);
    ResolutionFailsFirst(digits, v, data);
    var i := FirstFailureIsFirst(digits, refs, data);
    ReferenceFailsWith(digits, refs[i], data);
    forall j | 0 <= j < i ensures ReferenceLeads(digits, refs[j], data) {
      var r := ResolveReference(digits, refs[j], data);
      WalkFindsTarget(digits, refs[j].target.s, data[refs[j].target.s], refs[j].path.items, [], r.value);
    }
  }

  // ---------- the references in traversal order ----------

  ghost predicate IsReferenceOf(o: seq<Field>, ref: Reference) {
    && Lookup(o, "$step") == Some(ref.target)
    && ref.path == if Has(o, "path") then Lookup(o, "path").value else Arr([])
  }

  /** The listed references are those of the objects inside the value. */
  lemma {:induction false} ReferencesAreHeld(v: Value, ref: Reference)
    ensures ref in AllReferences(v) <==> exists o :: Holds(v, o) && IsReferenceOf(o, ref)
    decreases v
  {
    match v
    case Obj(fields) =>
      if Has(fields, "$step") {
        assert Holds(v, fields);
      } else {
        FieldReferencesAreHeld(fields, ref);
      }
    case Arr(items) => ItemReferencesAreHeld(items, ref);
    case _ =>
  }

  lemma {:induction false} FieldReferencesAreHeld(fields: seq<Field>, ref: Reference)
    ensures ref in FieldReferences(fields) <==> exists o :: FieldsHold(fields, o) && IsReferenceOf(o, ref)
    decreases fields
  {
    if fields != [] {
      ReferencesAreHeld(fields[0].value, ref);
      FieldReferencesAreHeld(fields[1..], ref);
      forall o ensures FieldsHold(fields, o) <==> Holds(fields[0].value, o) || FieldsHold(fields[1..], o) {
        FieldsHoldFirst(fields, o);
      }
    }
  }

  lemma {:induction false} ItemReferencesAreHeld(items: seq<Value>, ref: Reference)
    ensures ref in ItemReferences(items) <==> exists o :: ItemsHold(items, o) && IsReferenceOf(o, ref)
    decreases items
  {
    if items != [] {
      ReferencesAreHeld(items[0], ref);
      ItemReferencesAreHeld(items[1..], ref);
      forall o ensures ItemsHold(items, o) <==> Holds(items[0], o) || ItemsHold(items[1..], o) {
        ItemsHoldFirst(items, o);
      }
    }
  }
}
