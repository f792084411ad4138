/** The schema engine of api.py. BaseModel._validate_model walks a request
    class's fields in name order (the order inspect.getmembers yields), gives
    each field at most one error and keeps going after an error; BaseModel.__init__
    then applies the class's root constraint when no field failed. */
module Models {
  import opened Outcomes
  import opened Text
  import opened Json
  import opened Fields
  import opened FieldErrors

  /** A declared field: its attribute name, validator class and the two flags of BaseField. */
  datatype FieldSpec = FieldSpec(name: string, kind: Kind, required: bool, nullable: bool)

  /** A request class: its fields, and its root_validate over the set of fields given. */
  datatype Schema = Schema(fields: seq<FieldSpec>, root: Option<set<string> -> bool>)

  /** The order inspect.getmembers lists attributes in: strictly increasing names. */
  predicate SortedByName(fields: seq<FieldSpec>)
  {
    forall i, j :: 0 <= i < j < |fields| ==> LexLess(fields[i].name, fields[j].name)
  }

  predicate DistinctNames(fields: seq<FieldSpec>)
  {
    forall i, j :: 0 <= i < j < |fields| ==> fields[i].name != fields[j].name
  }

  function Names(fields: seq<FieldSpec>): (ns: set<string>)
    ensures forall n :: n in ns <==> exists k :: 0 <= k < |fields| && fields[k].name == n
  {
    set k | 0 <= k < |fields| :: fields[k].name
  }

  /** What one pass over the fields gathers: the `values` dict, the `fields_set` set and the `errors` list. */
  datatype Tally = Tally(values: map<string, Value>, fieldsSet: set<string>, errors: seq<FieldError>)

  /** The checks _validate_model makes on one field's value, in their order: none or
      required gives Missing; falsy and not nullable gives Required; truthy and refused
      by the validator gives FieldType. The validator runs only on a truthy value. */
  function Verdict(f: FieldSpec, v: Value, currentYear: int): (r: Outcome<Option<ErrorKind>>)
    ensures r.Raised? <==> Truthy(v) && IsValid(f.kind, v, currentYear).Raised?
    ensures r.Raised? ==> r.exc == IsValid(f.kind, v, currentYear).exc
    ensures r == Returned(Some(Missing)) <==> v == Null && f.required
    ensures r == Returned(Some(Required)) <==> !Truthy(v) && !f.nullable && !(v == Null && f.required)
    ensures r == Returned(Some(FieldType)) <==> Truthy(v) && IsValid(f.kind, v, currentYear) == Returned(false)
    ensures r == Returned(None) <==>
              && (v == Null ==> !f.required)
              && (!Truthy(v) ==> f.nullable)
              && (Truthy(v) ==> IsValid(f.kind, v, currentYear) == Returned(true))
  {
    if v == Null && f.required then Returned(Some(Missing))
    else if !Truthy(v) && !f.nullable then Returned(Some(Required))
    else if Truthy(v) then
      match IsValid(f.kind, v, currentYear)
      case Raised(e) => Raised(e)
      case Returned(ok) => if ok then Returned(None) else Returned(Some(FieldType))
    else Returned(None)
  }

  /** One turn of _validate_model's loop. */
  function Step(t: Tally, f: FieldSpec, data: map<string, Value>, currentYear: int): Outcome<Tally>
  {
    var v := Get(data, f.name);
    match Verdict(f, v, currentYear)
    case Raised(e) => Raised(e)
    case Returned(Some(k)) => Returned(t.(errors := t.errors + [FieldError(k, f.name)]))
    case Returned(None) =>
      Returned(Tally(t.values[f.name := v], if v != Null then t.fieldsSet + {f.name} else t.fieldsSet, t.errors))
  }

  /** The whole pass over the fields, in their order. */
  function Check(fields: seq<FieldSpec>, data: map<string, Value>, currentYear: int): Outcome<Tally>
    decreases |fields|
  {
    if fields == [] then Returned(Tally(map[], {}, []))
    else
      match Check(fields[..|fields| - 1], data, currentYear)
      case Raised(e) => Raised(e)
      case Returned(t) => Step(t, fields[|fields| - 1], data, currentYear)
  }

  /** BaseModel._validate_model. */
  method ValidateModel(fields: seq<FieldSpec>, data: map<string, Value>, currentYear: int) returns (r: Outcome<Tally>)
    ensures r == Check(fields, data, currentYear)
  {
    var errors: seq<FieldError> := [];
    var values: map<string, Value> := map[];
    var fieldsSet: set<string> := {};
    var i := 0;
    while i < |fields|
      invariant 0 <= i <= |fields|
      invariant Check(fields[..i], data, currentYear) == Returned(Tally(values, fieldsSet, errors))
    {
      var f := fields[i];
      var value := Get(data, f.name);
      assert fields[..i + 1][..i] == fields[..i];
      if value == Null && f.required {
        errors := errors + [FieldError(Missing, f.name)];
      } else if !Truthy(value) && !f.nullable {
        errors := errors + [FieldError(Required, f.name)];
      } else {
        var valid := Returned(true);
        if Truthy(value) {
          valid := IsValid(f.kind, value, currentYear);
        }
        if valid.Raised? {
          CheckRaisedExtends(fields, i + 1, data, currentYear);
          return Raised(valid.exc);
        }
        if !valid.value {
          errors := errors + [FieldError(FieldType, f.name)];
        } else {
          if value != Null {
            fieldsSet := fieldsSet + {f.name};
          }
          values := values[f.name := value];
        }
      }
      i := i + 1;
    }
    assert fields[..i] == fields;
    return Returned(Tally(values, fieldsSet, errors));
  }

  /** Once a field's validator has raised, the whole pass raises the same exception. */
  lemma {:induction false} CheckRaisedExtends(fields: seq<FieldSpec>, i: nat, data: map<string, Value>, currentYear: int)
    requires i <= |fields|
    requires Check(fields[..i], data, currentYear).Raised?
    ensures Check(fields, data, currentYear) == Check(fields[..i], data, currentYear)
    decreases |fields| - i
  {
    if i < |fields| {
      assert fields[..i + 1][..i] == fields[..i];
      CheckRaisedExtends(fields, i + 1, data, currentYear);
    } else {
      assert fields[..i] == fields;
    }
  }

  // ---- BaseModel.__init__ ----

  /** The error a model ends up with: the accumulated field errors, or the root constraint's. */
  datatype ModelError = ValidationError(errors: seq<FieldError>) | ConstrainError

  /** A constructed request: either its error, or the validated values and the names that were set. */
  datatype Model = Invalid(error: ModelError) | Valid(values: map<string, Value>, fieldsSet: set<string>)

  /** REQUIRED_PAIR: at least one of these pairs must be set in full. */
  const RequiredPair: seq<set<string>> := [{"last_name", "first_name"}, {"birthday", "gender"}, {"email", "phone"}]

  /** ConstrainError.get_message: the fixed text naming the pairs. Python prints each pair
      as a set, whose element order comes from string hashing; this is the order the test suite expects. */
  const ConstrainMessage: string :=
    "Должна присутствовать хотя бы одна пара полей: [{'last_name', 'first_name'}, {'birthday', 'gender'}, {'email', 'phone'}]"

  /** error.get_message(). */
  function ErrorMessage(e: ModelError): string
  {
    match e
    case ValidationError(errors) => Message(errors)
    case ConstrainError => ConstrainMessage
  }

  /** What constructing a request class from data produces. */
  function Validated(s: Schema, data: map<string, Value>, currentYear: int): Outcome<Model>
  {
    match Check(s.fields, data, currentYear)
    case Raised(e) => Raised(e)
    case Returned(t) =>
      if t.errors != [] then Returned(Invalid(ValidationError(t.errors)))
      else if s.root.Some? && !s.root.value(t.fieldsSet) then Returned(Invalid(ConstrainError))
      else Returned(Valid(t.values, t.fieldsSet))
  }

  /** Calling a request class with **data: each key becomes a keyword argument of
      __init__(self, **data), so a key "self" collides with the instance argument and the
      call raises TypeError before __init__ runs; any other dict reaches __init__. */
  function Construct(s: Schema, data: map<string, Value>, currentYear: int): (r: Outcome<Model>)
    ensures "self" in data ==> r == Raised(TypeError)
    ensures "self" !in data ==> r == Validated(s, data, currentYear)
  {
    if "self" in data then Raised(TypeError) else Validated(s, data, currentYear)
  }

  /** BaseModel.__init__: validate the fields, then the root constraint, and keep the values only without an error. */
  method InitModel(s: Schema, data: map<string, Value>, currentYear: int) returns (m: Outcome<Model>)
    ensures m == Validated(s, data, currentYear)
  {
    var checked := ValidateModel(s.fields, data, currentYear);
    if checked.Raised? {
      return Raised(checked.exc);
    }
    var t := checked.value;
    var error: Option<ModelError> := None;
    if t.errors != [] {
      error := Some(ValidationError(t.errors));
    }
    if error == None && s.root.Some? && !s.root.value(t.fieldsSet) {
      error := Some(ConstrainError);
    }
    if error == None {
      m := Returned(Valid(t.values, t.fieldsSet));
    } else {
      m := Returned(Invalid(error.value));
    }
  }

  /** error.get_message() as the objects compute it: the grouping loop for a ValidationError. */
  method GetErrorMessage(e: ModelError) returns (msg: string)
    ensures msg == ErrorMessage(e)
    ensures e.ConstrainError? ==> msg == ConstrainMessage
  {
    match e
    case ValidationError(errors) =>
      msg := GetMessage(errors);
    case ConstrainError =>
      msg := ConstrainMessage;
  }

  // ---- properties of the pass ----

  /** Errors name schema fields and, in a name-sorted schema, come out sorted by name:
      at most one error per field, in alphabetical order. */
  lemma {:induction false} ErrorsFollowSchema(fields: seq<FieldSpec>, data: map<string, Value>, currentYear: int)
    requires Check(fields, data, currentYear).Returned?
    ensures var t := Check(fields, data, currentYear).value;
      && (forall i :: 0 <= i < |t.errors| ==> t.errors[i].field in Names(fields))
      && (SortedByName(fields) ==>
            forall i, j :: 0 <= i < j < |t.errors| ==> LexLess(t.errors[i].field, t.errors[j].field))
    decreases |fields|
  {
    if fields != [] {
      var init := fields[..|fields| - 1];
      var last := fields[|fields| - 1];
      ErrorsFollowSchema(init, data, currentYear);
      var t0 := Check(init, data, currentYear).value;
      var t := Check(fields, data, currentYear).value;
      forall i | 0 <= i < |t0.errors| ensures t0.errors[i].field in Names(fields) {
        var k :| 0 <= k < |init| && init[k].name == t0.errors[i].field;
        assert fields[k].name == init[k].name;
      }
      assert fields[|fields| - 1].name == last.name;
      if SortedByName(fields) {
        assert SortedByName(init);
        forall i | 0 <= i < |t0.errors| ensures LexLess(t0.errors[i].field, last.name) {
          var k :| 0 <= k < |init| && init[k].name == t0.errors[i].field;
          assert fields[k] == init[k];
        }
      }
    }
  }

  /** Every field is checked, whatever happened to the others: a field has an error of
      kind K exactly when its own verdict is K, and otherwise its value is kept and it
      is in fields_set exactly when its value is not None. */
  lemma {:induction false} CheckComplete(fields: seq<FieldSpec>, data: map<string, Value>, currentYear: int, k: nat)
    requires DistinctNames(fields)
    requires Check(fields, data, currentYear).Returned?
    requires k < |fields|
    ensures var t := Check(fields, data, currentYear).value;
      var f := fields[k];
      var v := Get(data, f.name);
      && Verdict(f, v, currentYear).Returned?
      && (forall K :: FieldError(K, f.name) in t.errors <==> Verdict(f, v, currentYear) == Returned(Some(K)))
      && (f.name in t.values <==> Verdict(f, v, currentYear) == Returned(None))
      && (f.name in t.values ==> t.values[f.name] == v)
      && (f.name in t.fieldsSet <==> Verdict(f, v, currentYear) == Returned(None) && v != Null)
    decreases |fields|
  {
    var init := fields[..|fields| - 1];
    var last := fields[|fields| - 1];
    assert Check(init, data, currentYear).Returned?;
    var t0 := Check(init, data, currentYear).value;
    assert Check(fields, data, currentYear) == Step(t0, last, data, currentYear);
    if k < |init| {
      assert DistinctNames(init) && init[k] == fields[k];
      CheckComplete(init, data, currentYear, k);
      StepOther(t0, last, data, currentYear, fields[k].name);
    } else {
      assert last.name !in Names(init) by {
        forall j | 0 <= j < |init| ensures init[j].name != last.name {
          assert init[j] == fields[j];
        }
      }
      assert forall K :: FieldError(K, last.name) !in t0.errors by {
        TallyWithinSchema(init, data, currentYear);
      }
      assert last.name !in t0.values && last.name !in t0.fieldsSet by {
        TallyWithinSchema(init, data, currentYear);
      }
      StepOwn(t0, last, data, currentYear);
    }
  }

  /** One more field leaves what the tally says about another field as it was. */
  lemma StepOther(t: Tally, f: FieldSpec, data: map<string, Value>, currentYear: int, name: string)
    requires name != f.name
    requires Step(t, f, data, currentYear).Returned?
    ensures var t' := Step(t, f, data, currentYear).value;
      && (forall K :: FieldError(K, name) in t'.errors <==> FieldError(K, name) in t.errors)
      && (name in t'.values <==> name in t.values)
      && (name in t.values ==> t'.values[name] == t.values[name])
      && (name in t'.fieldsSet <==> name in t.fieldsSet)
  {
  }

  /** A field the tally did not mention yet ends up recorded exactly as its verdict says. */
  lemma StepOwn(t: Tally, f: FieldSpec, data: map<string, Value>, currentYear: int)
    requires f.name !in t.values && f.name !in t.fieldsSet
    requires forall K :: FieldError(K, f.name) !in t.errors
    requires Step(t, f, data, currentYear).Returned?
    ensures var t' := Step(t, f, data, currentYear).value;
      var v := Get(data, f.name);
      && Verdict(f, v, currentYear).Returned?
      && (forall K :: FieldError(K, f.name) in t'.errors <==> Verdict(f, v, currentYear) == Returned(Some(K)))
      && (f.name in t'.values <==> Verdict(f, v, currentYear) == Returned(None))
      && (f.name in t'.values ==> t'.values[f.name] == v)
      && (f.name in t'.fieldsSet <==> Verdict(f, v, currentYear) == Returned(None) && v != Null)
  {
  }

  /** The tally only ever mentions schema fields. */
  lemma {:induction false} TallyWithinSchema(fields: seq<FieldSpec>, data: map<string, Value>, currentYear: int)
    requires Check(fields, data, currentYear).Returned?
    ensures var t := Check(fields, data, currentYear).value;
      && t.values.Keys <= Names(fields)
      && t.fieldsSet <= t.values.Keys
      && (forall i :: 0 <= i < |t.errors| ==> t.errors[i].field in Names(fields))
    decreases |fields|
  {
    ErrorsFollowSchema(fields, data, currentYear);
    if fields != [] {
      var init := fields[..|fields| - 1];
      TallyWithinSchema(init, data, currentYear);
      assert Names(init) <= Names(fields) by {
        forall n | n in Names(init) ensures n in Names(fields) {
          var j :| 0 <= j < |init| && init[j].name == n;
          assert fields[j] == init[j];
        }
      }
      assert fields[|fields| - 1].name in Names(fields);
    }
  }

  /** The pass raises exactly when some field's validator raises. */
  lemma {:induction false} CheckRaises(fields: seq<FieldSpec>, data: map<string, Value>, currentYear: int)
    ensures Check(fields, data, currentYear).Raised? <==>
              exists k :: 0 <= k < |fields| && Verdict(fields[k], Get(data, fields[k].name), currentYear).Raised?
    decreases |fields|
  {
    if fields != [] {
      var init := fields[..|fields| - 1];
      CheckRaises(init, data, currentYear);
      if exists k :: 0 <= k < |init| && Verdict(init[k], Get(data, init[k].name), currentYear).Raised? {
        var k :| 0 <= k < |init| && Verdict(init[k], Get(data, init[k].name), currentYear).Raised?;
        assert fields[k] == init[k];
      }
      if exists k :: 0 <= k < |fields| && Verdict(fields[k], Get(data, fields[k].name), currentYear).Raised? {
        var k :| 0 <= k < |fields| && Verdict(fields[k], Get(data, fields[k].name), currentYear).Raised?;
        if k < |init| {
          assert fields[k] == init[k];
        }
      }
    }
  }

  // ---- properties of construction ----

  /** A valid model holds the input value of every field (None for the absent ones), its
      fields_set holds exactly the fields whose input is not None, and the root constraint holds. */
  lemma ValidModel(s: Schema, data: map<string, Value>, currentYear: int)
    requires DistinctNames(s.fields)
    requires Validated(s, data, currentYear).Returned? && Validated(s, data, currentYear).value.Valid?
    ensures var m := Validated(s, data, currentYear).value;
      && m.values.Keys == Names(s.fields)
      && (forall n :: n in m.values ==> m.values[n] == Get(data, n))
      && m.fieldsSet == set n | n in Names(s.fields) && Get(data, n) != Null
      && (s.root.Some? ==> s.root.value(m.fieldsSet))
  {
    var t := Check(s.fields, data, currentYear).value;
    TallyWithinSchema(s.fields, data, currentYear);
    forall k | 0 <= k < |s.fields|
      ensures s.fields[k].name in t.values
      ensures t.values[s.fields[k].name] == Get(data, s.fields[k].name)
      ensures s.fields[k].name in t.fieldsSet <==> Get(data, s.fields[k].name) != Null
    {
      CheckComplete(s.fields, data, currentYear, k);
    }
  }

  /** The root constraint is judged only when no field failed: a ConstrainError means
      every field passed its own checks. */
  lemma ConstraintAfterFields(s: Schema, data: map<string, Value>, currentYear: int)
    requires DistinctNames(s.fields)
    requires Validated(s, data, currentYear) == Returned(Invalid(ConstrainError))
    ensures forall k :: 0 <= k < |s.fields| ==>
              Verdict(s.fields[k], Get(data, s.fields[k].name), currentYear) == Returned(None)
    ensures s.root.Some? && !s.root.value(Check(s.fields, data, currentYear).value.fieldsSet)
  {
    var t := Check(s.fields, data, currentYear).value;
    forall k | 0 <= k < |s.fields|
      ensures Verdict(s.fields[k], Get(data, s.fields[k].name), currentYear) == Returned(None)
    {
      CheckComplete(s.fields, data, currentYear, k);
    }
  }

  /** The error of a constructed model always has a message: a ValidationError is only
      raised with at least one field error. */
  lemma ModelErrorMessage(s: Schema, data: map<string, Value>, currentYear: int)
    requires Validated(s, data, currentYear).Returned? && Validated(s, data, currentYear).value.Invalid?
    ensures ErrorMessage(Validated(s, data, currentYear).value.error) != ""
  {
    var err := Validated(s, data, currentYear).value.error;
    if err.ValidationError? {
      MessageNonEmpty(err.errors);
    }
  }

  /** A name-sorted table has no name twice. */
  lemma SortedDistinct(fields: seq<FieldSpec>)
    requires SortedByName(fields)
    ensures DistinctNames(fields)
  {
    forall i, j | 0 <= i < j < |fields| ensures fields[i].name != fields[j].name {
      LexLessIrreflexive(fields[i].name);
    }
  }

  /** When every field passes its own checks, the pass returns without errors. */
  lemma {:induction false} AllAccepted(fields: seq<FieldSpec>, data: map<string, Value>, currentYear: int)
    requires forall k :: 0 <= k < |fields| ==> Verdict(fields[k], Get(data, fields[k].name), currentYear) == Returned(None)
    ensures Check(fields, data, currentYear).Returned?
    ensures Check(fields, data, currentYear).value.errors == []
    decreases |fields|
  {
    if fields != [] {
      var init := fields[..|fields| - 1];
      forall k | 0 <= k < |init|
        ensures Verdict(init[k], Get(data, init[k].name), currentYear) == Returned(None)
      {
        assert init[k] == fields[k];
      }
      AllAccepted(init, data, currentYear);
      assert Verdict(fields[|fields| - 1], Get(data, fields[|fields| - 1].name), currentYear) == Returned(None);
    }
  }
}
