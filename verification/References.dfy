/**
 References from one step's arguments into the result of another step, and the three
 traversals that treat them: the validator's generator, the tolerant containment test
 of the argument validator, and the executor's resolver.
 */
module References {
  import opened Text
  import opened Json

  /** An object with a `$step` key, as found in raw arguments. */
  datatype Reference = Reference(target: Value, path: Value)

  function ReferenceOf(fields: seq<Field>): Reference
    requires Has(fields, "$step")
  {
    Reference(Lookup(fields, "$step").value, GetOr(fields, "path", Arr([])))
  }

  /** Every reference inside a value, in traversal order; a reference is not searched further. */
  function AllReferences(v: Value): seq<Reference>
    decreases v
  {
    match v
    case Obj(fields) => if Has(fields, "$step") then [ReferenceOf(fields)] else FieldReferences(fields)
    case Arr(items) => ItemReferences(items)
    case _ => []
  }

  function FieldReferences(fields: seq<Field>): seq<Reference>
    decreases fields
  {
    if fields == [] then [] else AllReferences(fields[0].value) + FieldReferences(fields[1..])
  }

  function ItemReferences(items: seq<Value>): seq<Reference>
    decreases items
  {
    if items == [] then [] else AllReferences(items[0]) + ItemReferences(items[1..])
  }

  // ---------- the argument validator's containment test ----------

  predicate ContainsStepReference(v: Value)
    decreases v
  {
    match v
    case Obj(fields) =>
      Has(fields, "$step") || exists i :: 0 <= i < |fields| && ContainsStepReference(fields[i].value)
    case Arr(items) => exists i :: 0 <= i < |items| && ContainsStepReference(items[i])
    case _ => false
  }

  // ---------- the plan validator's generator ----------

  /** What `list[str | int]` accepts of a JSON value; booleans and integral floats are taken as integers. */
  predicate IsPathSegment(v: Value) {
    v.Str? || v.Int? || v.Bool? || (v.Real? && v.x.Floor as real == v.x)
  }

  /** Validation of one reference object: its trimmed step id, or nothing when it is malformed. */
  function ValidateReference(fields: seq<Field>): (r: Option<string>)
    requires Has(fields, "$step")
    ensures r.Some? ==>
      && ReferenceOf(fields).target.Str? && ReferenceOf(fields).path.Arr?
      && r.value == Trim(ReferenceOf(fields).target.s) && IsIdentifier(r.value)
    ensures r.Some? ==> forall k :: k != "$step" && k != "path" ==> !Has(fields, k)
    ensures r.Some? ==> forall segment :: segment in ReferenceOf(fields).path.items ==> IsPathSegment(segment)
  {
    var ref := ReferenceOf(fields);
    if (forall i :: 0 <= i < |fields| ==> fields[i].key in {"$step", "path"})
       && ref.target.Str? && IsIdentifier(Trim(ref.target.s))
       && ref.path.Arr? && (forall i :: 0 <= i < |ref.path.items| ==> IsPathSegment(ref.path.items[i]))
    then Some(Trim(ref.target.s))
    else None
  }

  /** A reference object as a dictionary holds it: one target, and a path unless it is left out. */
  function Encoded(target: string, path: Option<seq<Value>>): (fields: seq<Field>)
    ensures Has(fields, "$step")
  {
    [Field("$step", Str(target))] + if path.Some? then [Field("path", Arr(path.value))] else []
  }

  /** Such an object is accepted exactly when its target is a padded identifier and its path holds segments. */
  lemma {:induction false} EncodedIsAcceptedIff(target: string, path: Option<seq<Value>>)
    ensures ReferenceOf(Encoded(target, path)) == Reference(Str(target), Arr(if path.Some? then path.value else []))
    ensures ValidateReference(Encoded(target, path)) ==
            if IsIdentifier(Trim(target))
              && (path.Some? ==> forall segment :: segment in path.value ==> IsPathSegment(segment))
            then Some(Trim(target)) else None
  {
    var fields := Encoded(target, path);
    assert |"$step"| != |"path"|;
    assert Lookup(fields, "path") == Lookup(fields[1..], "path");
    if path.None? {
      assert fields[1..] == [];
    } else {
      assert fields[1..] == [Field("path", Arr(path.value))];
      assert forall i :: 0 <= i < |path.value| ==> path.value[i] in path.value;
    }
  }

  /** The ids the generator yields, or nothing when a reference object it reaches is malformed. */
  function FindStepReferences(v: Value): Option<seq<string>>
    decreases v
  {
    match v
    case Obj(fields) =>
      if Has(fields, "$step") then
        var id := ValidateReference(fields);
        if id.Some? then Some([id.value]) else None
      else FindInFields(fields)
    case Arr(items) => FindInItems(items)
    case _ => Some([])
  }

  function Joined(a: Option<seq<string>>, b: Option<seq<string>>): Option<seq<string>> {
    if a.Some? && b.Some? then Some(a.value + b.value) else None
  }

  function FindInFields(fields: seq<Field>): Option<seq<string>>
    decreases fields
  {
    if fields == [] then Some([])
    else Joined(FindStepReferences(fields[0].value), FindInFields(fields[1..]))
  }

  function FindInItems(items: seq<Value>): Option<seq<string>>
    decreases items
  {
    if items == [] then Some([])
    else Joined(FindStepReferences(items[0]), FindInItems(items[1..]))
  }

  // ---------- the executor's resolver ----------

  datatype ResolveError =
    | StepMissing(stepId: string, path: seq<Value>)
    | FieldMissing(stepId: string, path: seq<Value>)
    | ElementMissing(stepId: string, path: seq<Value>)
    | ShapeMismatch(stepId: string, path: seq<Value>)
    | Malformed

  datatype Result<+T, +E> = Ok(value: T) | Err(error: E)

  /**
   The runtime's reading of numerals: `s.isdigit()`, and `int(s)`, which fails on some strings
   that `isdigit` accepts (digits that are not decimal, and numerals that are too long).
   */
  datatype Digits = Digits(isDigit: string -> bool, toInt: string -> Option<int>)

  /** A segment that is taken for an index and cannot be read as one. */
  predicate IsUnreadable(digits: Digits, segment: Value) {
    segment.Str? && segment.s !in {"first", "next"} && digits.isDigit(segment.s) && digits.toInt(segment.s).None?
  }

  /** A string segment that addresses a list is read as an index, if it can be. */
  function NormalizeSegment(digits: Digits, current: Value, segment: Value): (r: Option<Value>)
    ensures r.None? <==> current.Arr? && IsUnreadable(digits, segment)
    ensures r.Some? ==> r.value == segment || (current.Arr? && segment.Str? && r.value.Int?)
  {
    if current.Arr? && segment.Str? then
      if segment.s in {"first", "next"} then Some(Int(0))
      else if digits.isDigit(segment.s) then
        var n := digits.toInt(segment.s);
        if n.Some? then Some(Int(n.value)) else None
      else Some(segment)
    else Some(segment)
  }

  /** One iteration of the path loop. */
  function Descend(digits: Digits, stepId: string, current: Value, segment: Value, traversed: seq<Value>)
    : Result<Value, ResolveError>
  {
    var normalized := NormalizeSegment(digits, current, segment);
    if normalized.None? then Err(Malformed)
    else
      var at := normalized.value;
      if current.Obj? && at.Str? then
        if Has(current.fields, at.s) then Ok(Lookup(current.fields, at.s).value)
        else Err(FieldMissing(stepId, traversed + [at]))
      else if current.Arr? && at.Int? then
        if 0 <= at.n < |current.items| then Ok(current.items[at.n])
        else Err(ElementMissing(stepId, traversed + [at]))
      else Err(ShapeMismatch(stepId, traversed + [at]))
  }

  function Walk(digits: Digits, stepId: string, current: Value, path: seq<Value>, traversed: seq<Value>)
    : Result<Value, ResolveError>
  {
    if path == [] then Ok(current)
    else
      var next := Descend(digits, stepId, current, path[0], traversed);
      if next.Err? then next
      else Walk(digits, stepId, next.value, path[1..], traversed + [NormalizeSegment(digits, current, path[0]).value])
  }

  function ResolveReference(digits: Digits, ref: Reference, data: map<string, Value>): Result<Value, ResolveError> {
    if !ref.target.Str? || !ref.path.Arr? then Err(Malformed)
    else if ref.target.s !in data then Err(StepMissing(ref.target.s, ref.path.items))
    else Walk(digits, ref.target.s, data[ref.target.s], ref.path.items, [])
  }

  function Resolve(digits: Digits, v: Value, data: map<string, Value>): Result<Value, ResolveError>
    decreases v
  {
    match v
    case Obj(fields) =>
      if Has(fields, "$step") then ResolveReference(digits, ReferenceOf(fields), data)
      else
        var r := ResolveFields(digits, fields, data);
        if r.Ok? then Ok(Obj(r.value)) else Err(r.error)
    case Arr(items) =>
      var r := ResolveItems(digits, items, data);
      if r.Ok? then Ok(Arr(r.value)) else Err(r.error)
    case _ => Ok(v)
  }

  function ResolveFields(digits: Digits, fields: seq<Field>, data: map<string, Value>): Result<seq<Field>, ResolveError>
    decreases fields
  {
    if fields == [] then Ok([])
    else
      var head := Resolve(digits, fields[0].value, data);
      if head.Err? then Err(head.error)
      else
        var tail := ResolveFields(digits, fields[1..], data);
        if tail.Err? then tail else Ok([Field(fields[0].key, head.value)] + tail.value)
  }

  function ResolveItems(digits: Digits, items: seq<Value>, data: map<string, Value>): Result<seq<Value>, ResolveError>
    decreases items
  {
    if items == [] then Ok([])
    else
      var head := Resolve(digits, items[0], data);
      if head.Err? then Err(head.error)
      else
        var tail := ResolveItems(digits, items[1..], data);
        if tail.Err? then tail else Ok([head.value] + tail.value)
  }

  /** The path loop of the resolver. */
  method FollowPath(digits: Digits, stepId: string, root: Value, path: seq<Value>)
    returns (r: Result<Value, ResolveError>)
    ensures r == Walk(digits, stepId, root, path, [])
  {
    var current, traversed := root, [];
    for i := 0 to |path|
      invariant Walk(digits, stepId, root, path, []) == Walk(digits, stepId, current, path[i..], traversed)
    {
      assert path[i..][0] == path[i] && path[i..][1..] == path[i + 1..];
      var at := NormalizeSegment(digits, current, path[i]);
      if at.None? {
        return Err(Malformed);
      }
      var next := Descend(digits, stepId, current, path[i], traversed);
      if next.Err? {
        return next;
      }
      current := next.value;
      traversed := traversed + [at.value];
    }
    return Ok(current);
  }

  // ---------- the traversals agree ----------

  lemma {:induction false} ContainsAgrees(v: Value)
    ensures ContainsStepReference(v) <==> AllReferences(v) != []
    decreases v
  {
    match v
    case Obj(fields) => ContainsAgreesOnFields(fields);
    case Arr(items) => ContainsAgreesOnItems(items);
    case _ =>
  }

  lemma {:induction false} ContainsAgreesOnFields(fields: seq<Field>)
    ensures (exists i :: 0 <= i < |fields| && ContainsStepReference(fields[i].value)) <==> FieldReferences(fields) != []
    decreases fields
  {
    if fields != [] {
      ContainsAgrees(fields[0].value);
      ContainsAgreesOnFields(fields[1..]);
      assert forall i :: 0 < i < |fields| ==> fields[i] == fields[1..][i - 1];
    }
  }

  lemma {:induction false} ContainsAgreesOnItems(items: seq<Value>)
    ensures (exists i :: 0 <= i < |items| && ContainsStepReference(items[i])) <==> ItemReferences(items) != []
    decreases items
  {
    if items != [] {
      ContainsAgrees(items[0]);
      ContainsAgreesOnItems(items[1..]);
      assert forall i :: 0 < i < |items| ==> items[i] == items[1..][i - 1];
    }
  }

  /** The generator's ids are the trimmed targets of the references, one for one. */
  ghost predicate Yields(refs: seq<Reference>, ids: seq<string>) {
    && |ids| == |refs|
    && forall i :: 0 <= i < |refs| ==>
         && refs[i].target.Str? && refs[i].path.Arr?
         && ids[i] == Trim(refs[i].target.s) && IsIdentifier(ids[i])
  }

  lemma {:induction false} FindAgrees(v: Value)
    requires FindStepReferences(v).Some?
    ensures Yields(AllReferences(v), FindStepReferences(v).value)
    decreases v
  {
    match v
    case Obj(fields) => if !Has(fields, "$step") { FindAgreesOnFields(fields); }
    case Arr(items) => FindAgreesOnItems(items);
    case _ =>
  }

  lemma {:induction false} FindAgreesOnFields(fields: seq<Field>)
    requires FindInFields(fields).Some?
    ensures Yields(FieldReferences(fields), FindInFields(fields).value)
    decreases fields
  {
    if fields != [] {
      FindAgrees(fields[0].value);
      FindAgreesOnFields(fields[1..]);
    }
  }

  lemma {:induction false} FindAgreesOnItems(items: seq<Value>)
    requires FindInItems(items).Some?
    ensures Yields(ItemReferences(items), FindInItems(items).value)
    decreases items
  {
    if items != [] {
      FindAgrees(items[0]);
      FindAgreesOnItems(items[1..]);
    }
  }

  /** The error of the first reference that does not resolve. */
  function FirstFailure(digits: Digits, refs: seq<Reference>, data: map<string, Value>): (r: Option<ResolveError>)
    ensures r.None? <==> forall i :: 0 <= i < |refs| ==> ResolveReference(digits, refs[i], data).Ok?
    ensures r.Some? ==> exists i :: 0 <= i < |refs| && ResolveReference(digits, refs[i], data) == Err(r.value)
  {
    if refs == [] then None
    else
      var head := ResolveReference(digits, refs[0], data);
      if head.Err? then Some(head.error)
      else
        var r := FirstFailure(digits, refs[1..], data);
        assert forall i :: 0 < i < |refs| ==> refs[i] == refs[1..][i - 1];
        assert forall i :: 0 <= i < |refs[1..]| ==> refs[1..][i] == refs[i + 1];
        r
  }

  function Failure<T>(r: Result<T, ResolveError>): Option<ResolveError> {
    if r.Err? then Some(r.error) else None
  }

  lemma {:induction false} FirstFailureSplits(digits: Digits, a: seq<Reference>, b: seq<Reference>,
                                              data: map<string, Value>)
    ensures FirstFailure(digits, a + b, data) ==
            if FirstFailure(digits, a, data).Some? then FirstFailure(digits, a, data) else FirstFailure(digits, b, data)
  {
    if a == [] {
      assert a + b == b;
    } else {
      assert (a + b)[1..] == a[1..] + b;
      FirstFailureSplits(digits, a[1..], b, data);
    }
  }

  /** Resolution succeeds iff every reference resolves, and otherwise fails as the first that does not. */
  lemma {:induction false} ResolutionFailsFirst(digits: Digits, v: Value, data: map<string, Value>)
    ensures Failure(Resolve(digits, v, data)) == FirstFailure(digits, AllReferences(v), data)
    decreases v
  {
    match v
    case Obj(fields) =>
      if Has(fields, "$step") {
        assert [ReferenceOf(fields)][1..] == [];
      } else {
        ResolutionOfFieldsFailsFirst(digits, fields, data);
      }
    case Arr(items) => ResolutionOfItemsFailsFirst(digits, items, data);
    case _ =>
  }

  lemma {:induction false} ResolutionOfFieldsFailsFirst(digits: Digits, fields: seq<Field>, data: map<string, Value>)
    ensures Failure(ResolveFields(digits, fields, data)) == FirstFailure(digits, FieldReferences(fields), data)
    decreases fields
  {
    if fields != [] {
      ResolutionFailsFirst(digits, fields[0].value, data);
      ResolutionOfFieldsFailsFirst(digits, fields[1..], data);
      FirstFailureSplits(digits, AllReferences(fields[0].value), FieldReferences(fields[1..]), data);
    }
  }

  lemma {:induction false} ResolutionOfItemsFailsFirst(digits: Digits, items: seq<Value>, data: map<string, Value>)
    ensures Failure(ResolveItems(digits, items, data)) == FirstFailure(digits, ItemReferences(items), data)
    decreases items
  {
    if items != [] {
      ResolutionFailsFirst(digits, items[0], data);
      ResolutionOfItemsFailsFirst(digits, items[1..], data);
      FirstFailureSplits(digits, AllReferences(items[0]), ItemReferences(items[1..]), data);
    }
  }

  /** Both maps say the same about every step a reference names. */
  ghost predicate AgreeOn(refs: seq<Reference>, a: map<string, Value>, b: map<string, Value>) {
    forall i :: 0 <= i < |refs| && refs[i].target.Str? ==>
      var id := refs[i].target.s;
      (id in a <==> id in b) && (id in a ==> a[id] == b[id])
  }

  lemma {:induction false} ResolutionReadsOnlyReferences(digits: Digits, v: Value, a: map<string, Value>,
                                                         b: map<string, Value>)
    requires AgreeOn(AllReferences(v), a, b)
    ensures Resolve(digits, v, a) == Resolve(digits, v, b)
    decreases v
  {
    match v
    case Obj(fields) =>
      if Has(fields, "$step") {
        assert AllReferences(v)[0] == ReferenceOf(fields);
      } else {
        ResolutionOfFieldsReadsOnlyReferences(digits, fields, a, b);
      }
    case Arr(items) => ResolutionOfItemsReadsOnlyReferences(digits, items, a, b);
    case _ =>
  }

  lemma {:induction false} AgreeOnParts(x: seq<Reference>, y: seq<Reference>, a: map<string, Value>,
                                        b: map<string, Value>)
    requires AgreeOn(x + y, a, b)
    ensures AgreeOn(x, a, b) && AgreeOn(y, a, b)
  {
    forall i | 0 <= i < |x| ensures x[i] == (x + y)[i] {}
    forall i | 0 <= i < |y| ensures y[i] == (x + y)[|x| + i] {}
  }

  lemma {:induction false} ResolutionOfFieldsReadsOnlyReferences(digits: Digits, fields: seq<Field>,
                                                                 a: map<string, Value>, b: map<string, Value>)
    requires AgreeOn(FieldReferences(fields), a, b)
    ensures ResolveFields(digits, fields, a) == ResolveFields(digits, fields, b)
    decreases fields
  {
    if fields != [] {
      AgreeOnParts(AllReferences(fields[0].value), FieldReferences(fields[1..]), a, b);
      ResolutionReadsOnlyReferences(digits, fields[0].value, a, b);
      ResolutionOfFieldsReadsOnlyReferences(digits, fields[1..], a, b);
    }
  }

  lemma {:induction false} ResolutionOfItemsReadsOnlyReferences(digits: Digits, items: seq<Value>,
                                                                a: map<string, Value>, b: map<string, Value>)
    requires AgreeOn(ItemReferences(items), a, b)
    ensures ResolveItems(digits, items, a) == ResolveItems(digits, items, b)
    decreases items
  {
    if items != [] {
      AgreeOnParts(AllReferences(items[0]), ItemReferences(items[1..]), a, b);
      ResolutionReadsOnlyReferences(digits, items[0], a, b);
      ResolutionOfItemsReadsOnlyReferences(digits, items[1..], a, b);
    }
  }

  // ---------- what a path denotes ----------

  /** `segment` selects `child` in `parent`: a key of an object, or an index of a list however spelled. */
  ghost predicate Selects(digits: Digits, parent: Value, segment: Value, child: Value) {
    || (parent.Obj? && segment.Str? && Lookup(parent.fields, segment.s) == Some(child))
    || (parent.Arr? && exists i :: 0 <= i < |parent.items| && Denotes(digits, segment, i) && parent.items[i] == child)
  }

  /** Spellings of a list index. */
  ghost predicate Denotes(digits: Digits, segment: Value, i: int) {
    || segment == Int(i)
    || (segment.Str? && segment.s in {"first", "next"} && i == 0)
    || (segment.Str? && segment.s !in {"first", "next"} && digits.isDigit(segment.s)
         && digits.toInt(segment.s) == Some(i))
  }

  ghost predicate LeadsTo(digits: Digits, root: Value, path: seq<Value>, target: Value) {
    exists nodes: seq<Value> :: NodesAlong(digits, root, path, target, nodes)
  }

  ghost predicate NodesAlong(digits: Digits, root: Value, path: seq<Value>, target: Value, nodes: seq<Value>) {
    && |nodes| == |path| + 1 && nodes[0] == root && nodes[|path|] == target
    && forall i :: 0 <= i < |path| ==> Selects(digits, nodes[i], path[i], nodes[i + 1])
  }

  lemma {:induction false} DescendSelects(digits: Digits, stepId: string, current: Value, segment: Value,
                                          traversed: seq<Value>, child: Value)
    ensures Descend(digits, stepId, current, segment, traversed) == Ok(child) <==>
              Selects(digits, current, segment, child)
  {
    if Descend(digits, stepId, current, segment, traversed) == Ok(child) && current.Arr? {
      assert Denotes(digits, segment, NormalizeSegment(digits, current, segment).value.n);
    }
  }

  /** A path leads on from whatever its first segment selects. */
  lemma {:induction false} LeadsOn(digits: Digits, root: Value, path: seq<Value>, target: Value)
    requires path != []
    ensures LeadsTo(digits, root, path, target) <==>
            exists child :: Selects(digits, root, path[0], child) && LeadsTo(digits, child, path[1..], target)
  {
    if LeadsTo(digits, root, path, target) {
      var nodes :| NodesAlong(digits, root, path, target, nodes);
      assert NodesAlong(digits, nodes[1], path[1..], target, nodes[1..]);
      assert Selects(digits, nodes[0], path[0], nodes[0 + 1]);
    }
    if child :| Selects(digits, root, path[0], child) && LeadsTo(digits, child, path[1..], target) {
      var nodes :| NodesAlong(digits, child, path[1..], target, nodes);
      assert NodesAlong(digits, root, path, target, [root] + nodes);
    }
  }

  lemma {:induction false} NoPathStays(digits: Digits, root: Value, target: Value)
    ensures LeadsTo(digits, root, [], target) <==> target == root
  {
    assert NodesAlong(digits, root, [], root, [root]);
  }

  /** Walking a path returns exactly the value that the path leads to. */
  lemma {:induction false} WalkFindsTarget(digits: Digits, stepId: string, root: Value, path: seq<Value>,
                                           traversed: seq<Value>, target: Value)
    ensures Walk(digits, stepId, root, path, traversed) == Ok(target) <==> LeadsTo(digits, root, path, target)
    decreases |path|
  {
    if path == [] {
      NoPathStays(digits, root, target);
    } else {
      LeadsOn(digits, root, path, target);
      forall child ensures Descend(digits, stepId, root, path[0], traversed) == Ok(child) <==>
                           Selects(digits, root, path[0], child)
      {
        DescendSelects(digits, stepId, root, path[0], traversed, child);
      }
      var next := Descend(digits, stepId, root, path[0], traversed);
      if next.Ok? {
        var at := NormalizeSegment(digits, root, path[0]).value;
        WalkFindsTarget(digits, stepId, next.value, path[1..], traversed + [at], target);
      }
    }
  }

  /** The path leads to a list with a segment that is taken for an index and cannot be read as one. */
  ghost predicate HitsUnreadable(digits: Digits, root: Value, path: seq<Value>) {
    exists k :: 0 <= k < |path| && UnreadableAt(digits, root, path, k)
  }

  ghost predicate UnreadableAt(digits: Digits, root: Value, path: seq<Value>, k: nat)
    requires k < |path|
  {
    IsUnreadable(digits, path[k]) && exists list: Value :: LeadsTo(digits, root, path[..k], list) && list.Arr?
  }

  lemma {:induction false} UnreadableFurtherOn(digits: Digits, root: Value, path: seq<Value>, child: Value, k: nat)
    requires 0 < k < |path|
    requires forall c :: Selects(digits, root, path[0], c) <==> c == child
    ensures UnreadableAt(digits, root, path, k) <==> UnreadableAt(digits, child, path[1..], k - 1)
  {
    assert path[..k][1..] == path[1..][..k - 1];
    forall list ensures LeadsTo(digits, root, path[..k], list) <==> LeadsTo(digits, child, path[1..][..k - 1], list) {
      LeadsOn(digits, root, path[..k], list);
    }
  }

  /** The walk is malformed exactly when it hits such a segment. */
  lemma {:induction false} WalkIsMalformedIff(digits: Digits, stepId: string, root: Value, path: seq<Value>,
                                              traversed: seq<Value>)
    ensures Walk(digits, stepId, root, path, traversed) == Err(Malformed) <==> HitsUnreadable(digits, root, path)
    decreases |path|
  {
    if path != [] {
      assert UnreadableAt(digits, root, path, 0) <==> root.Arr? && IsUnreadable(digits, path[0]) by {
        assert path[..0] == [];
        forall list ensures LeadsTo(digits, root, [], list) <==> list == root { NoPathStays(digits, root, list); }
      }
      forall child ensures Descend(digits, stepId, root, path[0], traversed) == Ok(child) <==>
                           Selects(digits, root, path[0], child)
      {
        DescendSelects(digits, stepId, root, path[0], traversed, child);
      }
      var next := Descend(digits, stepId, root, path[0], traversed);
      if next.Ok? {
        var at := NormalizeSegment(digits, root, path[0]).value;
        WalkIsMalformedIff(digits, stepId, next.value, path[1..], traversed + [at]);
        HitsFurtherOn(digits, root, path, next.value);
      } else {
        forall k | 0 < k < |path| ensures !UnreadableAt(digits, root, path, k) {
          forall list ensures !LeadsTo(digits, root, path[..k], list) { LeadsOn(digits, root, path[..k], list); }
        }
      }
    }
  }

  lemma {:induction false} HitsFurtherOn(digits: Digits, root: Value, path: seq<Value>, child: Value)
    requires path != [] && !UnreadableAt(digits, root, path, 0)
    requires forall c :: Selects(digits, root, path[0], c) <==> c == child
    ensures HitsUnreadable(digits, root, path) <==> HitsUnreadable(digits, child, path[1..])
  {
    if k :| 0 <= k < |path| && UnreadableAt(digits, root, path, k) {
      UnreadableFurtherOn(digits, root, path, child, k);
    }
    if k :| 0 <= k < |path[1..]| && UnreadableAt(digits, child, path[1..], k) {
      UnreadableFurtherOn(digits, root, path, child, k + 1);
    }
  }

  /** An error names the step that was walked, and a path no longer than the one that was followed. */
  lemma {:induction false} WalkErrorNamesStep(digits: Digits, stepId: string, current: Value, path: seq<Value>,
                                              traversed: seq<Value>)
    ensures var r := Walk(digits, stepId, current, path, traversed);
            r.Err? && !r.error.Malformed? ==>
              r.error.stepId == stepId && |traversed| <= |r.error.path| <= |traversed| + |path|
    decreases |path|
  {
    if path != [] && Descend(digits, stepId, current, path[0], traversed).Ok? {
      WalkErrorNamesStep(digits, stepId, Descend(digits, stepId, current, path[0], traversed).value, path[1..],
                         traversed + [NormalizeSegment(digits, current, path[0]).value]);
    }
  }

  /** The error a value fails with names one of its references. */
  lemma {:induction false} ErrorNamesReference(digits: Digits, v: Value, data: map<string, Value>)
    returns (ref: Reference)
    requires Resolve(digits, v, data).Err? && !Resolve(digits, v, data).error.Malformed?
    ensures ref in AllReferences(v) && ref.target.Str? && ref.path.Arr?
    ensures var e := Resolve(digits, v, data).error;
            e.stepId == ref.target.s && |e.path| <= |ref.path.items|
  {
    ResolutionFailsFirst(digits, v, data);
    var refs := AllReferences(v);
    var i :| 0 <= i < |refs| && ResolveReference(digits, refs[i], data) == Err(Resolve(digits, v, data).error);
    ref := refs[i];
    if ref.target.s in data {
      WalkErrorNamesStep(digits, ref.target.s, data[ref.target.s], ref.path.items, []);
    }
  }

  // ---------- references of a validated value ----------

  predicate Padded(ref: Reference) {
    ref.target.Str? && Trim(ref.target.s) != ref.target.s
  }

  predicate HasPadded(v: Value) {
    exists ref :: ref in AllReferences(v) && Padded(ref)
  }

  predicate MissesStep<T>(r: Result<T, ResolveError>) {
    r.Err? && r.error.StepMissing?
  }

  /** Result keys are step ids, and every id the validator yielded has a result. */
  ghost predicate Covers(data: map<string, Value>, ids: seq<string>) {
    && (forall id :: id in data ==> IsIdentifier(id))
    && forall i :: 0 <= i < |ids| ==> ids[i] in data
  }

  /**
   A validated reference misses its step exactly when it is padded, and is malformed exactly
   when it is not padded and its path hits an unreadable index.
   */
  lemma {:induction false} ValidatedReferenceFailsIff(digits: Digits, ref: Reference, data: map<string, Value>)
    requires ref.target.Str? && ref.path.Arr? && Trim(ref.target.s) in data
    requires forall id :: id in data ==> IsIdentifier(id)
    ensures Padded(ref) <==> ResolveReference(digits, ref, data) == Err(StepMissing(ref.target.s, ref.path.items))
    ensures !Padded(ref) <==> ref.target.s in data
    ensures !Padded(ref) ==> !MissesStep(ResolveReference(digits, ref, data))
    ensures ResolveReference(digits, ref, data) == Err(Malformed) <==> MeetsUnreadable(digits, ref, data)
  {
    if Padded(ref) {
      if ref.target.s in data {
        IdentifierIsTrimmed(ref.target.s);
        assert false;
      }
    } else {
      WalkNeverMissesStep(digits, ref.target.s, data[ref.target.s], ref.path.items, []);
      WalkIsMalformedIff(digits, ref.target.s, data[ref.target.s], ref.path.items, []);
    }
  }

  /** The reference names a step with a result, whose data its path follows to an unreadable index. */
  ghost predicate MeetsUnreadable(digits: Digits, ref: Reference, data: map<string, Value>) {
    && ref.target.Str? && ref.path.Arr? && ref.target.s in data
    && HitsUnreadable(digits, data[ref.target.s], ref.path.items)
  }

  lemma {:induction false} WalkNeverMissesStep(digits: Digits, stepId: string, current: Value, path: seq<Value>,
                                               traversed: seq<Value>)
    ensures !MissesStep(Walk(digits, stepId, current, path, traversed))
  {
    if path != [] && Descend(digits, stepId, current, path[0], traversed).Ok? {
      WalkNeverMissesStep(digits, stepId, Descend(digits, stepId, current, path[0], traversed).value, path[1..],
                          traversed + [NormalizeSegment(digits, current, path[0]).value]);
    }
  }

  /**
   On validated arguments a missing step needs a padded reference, and malformed resolution a
   reference that meets an unreadable index. Once every other reference resolves, such a
   reference alone decides the outcome.
   */
  lemma {:induction false} ValidatedFailsIff(digits: Digits, v: Value, data: map<string, Value>)
    requires FindStepReferences(v).Some? && Covers(data, FindStepReferences(v).value)
    ensures MissesStep(Resolve(digits, v, data)) ==> HasPadded(v)
    ensures Resolve(digits, v, data) == Err(Malformed) ==> HasUnreadable(digits, v, data)
    ensures (forall ref :: ref in AllReferences(v) && !Padded(ref) ==> ResolveReference(digits, ref, data).Ok?) ==>
              && (MissesStep(Resolve(digits, v, data)) <==> HasPadded(v))
              && (Resolve(digits, v, data).Ok? <==> !HasPadded(v))
    ensures (forall ref :: ref in AllReferences(v) && !MeetsUnreadable(digits, ref, data) ==>
                             ResolveReference(digits, ref, data).Ok?) ==>
              && (Resolve(digits, v, data) == Err(Malformed) <==> HasUnreadable(digits, v, data))
              && (Resolve(digits, v, data).Ok? <==> !HasUnreadable(digits, v, data))
  {
    var refs := AllReferences(v);
    FindAgrees(v);
    ResolutionFailsFirst(digits, v, data);
    forall ref | ref in refs
      ensures Padded(ref) <==> MissesStep(ResolveReference(digits, ref, data))
      ensures MeetsUnreadable(digits, ref, data) <==> ResolveReference(digits, ref, data) == Err(Malformed)
    {
      var i :| 0 <= i < |refs| && refs[i] == ref;
      assert FindStepReferences(v).value[i] in data;
      ValidatedReferenceFailsIff(digits, ref, data);
    }
  }

  ghost predicate HasUnreadable(digits: Digits, v: Value, data: map<string, Value>) {
    exists ref :: ref in AllReferences(v) && MeetsUnreadable(digits, ref, data)
  }

  /** Validation trims the step id of a reference, resolution does not: a padded one passes and then misses. */
  lemma {:induction false} PaddedReferenceCounterexample(digits: Digits)
    ensures var v := Obj([Field("keywords", Obj([Field("$step", Str(" cal"))]))]);
            && FindStepReferences(v) == Some(["cal"])
            && forall data: map<string, Value> :: Covers(data, ["cal"]) ==>
                 Resolve(digits, v, data) == Err(StepMissing(" cal", []))
  {
    var inner := [Field("$step", Str(" cal"))];
    var v := Obj([Field("keywords", Obj(inner))]);
    assert Trim(" cal") == "cal" by {
      assert " cal"[1..] == "cal";
      IdentifierIsTrimmed("cal");
    }
    assert FindStepReferences(Obj(inner)) == Some(["cal"]);
    assert v.fields[1..] == [];
    assert Joined(Some(["cal"]), Some([])) == Some(["cal"]) by {
      assert ["cal"] + [] == ["cal"];
    }
    assert FindInFields(v.fields[1..]) == Some([]);
    assert AllReferences(Obj(inner)) == [Reference(Str(" cal"), Arr([]))];
    assert FieldReferences(v.fields) == [Reference(Str(" cal"), Arr([]))];
    forall data: map<string, Value> | Covers(data, ["cal"])
      ensures Resolve(digits, v, data) == Err(StepMissing(" cal", []))
    {
      assert ["cal"][0] in data;
      assert !IsIdentifier(" cal");
      assert Resolve(digits, Obj(inner), data) == Err(StepMissing(" cal", []));
    }
  }

  /**
   `isdigit` accepts a superscript, `int` does not: such a path segment passes validation and is
   malformed on a list.
   */
  lemma {:induction false} SuperscriptReferenceCounterexample(digits: Digits, items: seq<Value>)
    requires digits.isDigit("\U{B2}") && digits.toInt("\U{B2}").None?
    ensures var v := Obj([Field("$step", Str("cal")), Field("path", Arr([Str("\U{B2}")]))]);
            && FindStepReferences(v) == Some(["cal"])
            && forall data: map<string, Value> :: "cal" in data && data["cal"] == Arr(items) ==>
                 Resolve(digits, v, data) == Err(Malformed)
  {
    var segment := Str("\U{B2}");
    var fields := [Field("$step", Str("cal")), Field("path", Arr([segment]))];
    IdentifierIsTrimmed("cal");
    assert fields[1..] == [Field("path", Arr([segment]))];
    assert Lookup(fields, "path") == Some(Arr([segment])) by {
      assert |"$step"| != |"path"|;
    }
    assert FindStepReferences(Obj(fields)) == Some(["cal"]);
    assert NormalizeSegment(digits, Arr(items), segment).None? by {
      assert |"\U{B2}"| != |"first"|;
    }
    assert [segment][0] == segment;
  }

  /** Resolution keeps an object's keys in order and resolves each of its values. */
  lemma {:induction false} ResolvedFieldsKeepKeys(digits: Digits, fields: seq<Field>, data: map<string, Value>)
    requires ResolveFields(digits, fields, data).Ok?
    ensures var r := ResolveFields(digits, fields, data).value;
            && |r| == |fields|
            && forall i :: 0 <= i < |r| ==>
                 r[i].key == fields[i].key && Resolve(digits, fields[i].value, data) == Ok(r[i].value)
    decreases fields
  {
    if fields != [] {
      ResolvedFieldsKeepKeys(digits, fields[1..], data);
    }
  }

  /** A value without references resolves to itself. */
  lemma {:induction false} ResolveWithoutReferences(digits: Digits, v: Value, data: map<string, Value>)
    requires AllReferences(v) == []
    ensures Resolve(digits, v, data) == Ok(v)
    decreases v
  {
    match v
    case Obj(fields) => ResolveFieldsWithoutReferences(digits, fields, data);
    case Arr(items) => ResolveItemsWithoutReferences(digits, items, data);
    case _ =>
  }

  lemma {:induction false} ResolveFieldsWithoutReferences(digits: Digits, fields: seq<Field>, data: map<string, Value>)
    requires FieldReferences(fields) == []
    ensures ResolveFields(digits, fields, data) == Ok(fields)
    decreases fields
  {
    if fields != [] {
      ResolveWithoutReferences(digits, fields[0].value, data);
      ResolveFieldsWithoutReferences(digits, fields[1..], data);
      assert fields == [fields[0]] + fields[1..];
    }
  }

  lemma {:induction false} ResolveItemsWithoutReferences(digits: Digits, items: seq<Value>, data: map<string, Value>)
    requires ItemReferences(items) == []
    ensures ResolveItems(digits, items, data) == Ok(items)
    decreases items
  {
    if items != [] {
      ResolveWithoutReferences(digits, items[0], data);
      ResolveItemsWithoutReferences(digits, items[1..], data);
      assert items == [items[0]] + items[1..];
    }
  }
}
