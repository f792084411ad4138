/** The three request classes of api.py as explicit field tables, listed in the
    order inspect.getmembers yields their fields (by name), and OnlineScoreRequest's
    root constraint. */
module Requests {
  import opened Outcomes
  import opened Text
  import opened Json
  import opened Fields
  import opened FieldErrors
  import opened Models

  /** validate_on_line_score_fields: some pair of REQUIRED_PAIR lies within fields_set. */
  function ValidateOnLineScoreFields(fieldsSet: set<string>): (ok: bool)
    ensures ok <==> || {"first_name", "last_name"} <= fieldsSet
                    || {"birthday", "gender"} <= fieldsSet
                    || {"email", "phone"} <= fieldsSet
  {
    assert RequiredPair[0] == {"first_name", "last_name"};
    assert RequiredPair[1] == {"birthday", "gender"};
    assert RequiredPair[2] == {"email", "phone"};
    exists k :: 0 <= k < |RequiredPair| && RequiredPair[k] <= fieldsSet
  }

  const ClientsInterestsRequest: Schema := Schema([
    FieldSpec("client_ids", ClientIdsField, true, false),
    FieldSpec("date", DateField, false, true)
  ], None)

  const OnlineScoreRequest: Schema := Schema([
    FieldSpec("birthday", BirthDayField, false, true),
    FieldSpec("email", EmailField, false, true),
    FieldSpec("first_name", CharField, false, true),
    FieldSpec("gender", GenderField, false, true),
    FieldSpec("last_name", CharField, false, true),
    FieldSpec("phone", PhoneField, false, true)
  ], Some(ValidateOnLineScoreFields))

  const MethodRequest: Schema := Schema([
    FieldSpec("account", CharField, false, true),
    FieldSpec("arguments", ArgumentsField, true, true),
    FieldSpec("login", CharField, true, true),
    FieldSpec("method", CharField, true, false),
    FieldSpec("token", CharField, true, true)
  ], None)

  /** The tables list their fields in the order Python's reflection does. */
  lemma SchemasSorted()
    ensures SortedByName(ClientsInterestsRequest.fields)
    ensures SortedByName(OnlineScoreRequest.fields)
    ensures SortedByName(MethodRequest.fields)
  {
    OnlineScoreSorted();
    MethodRequestSorted();
  }

  lemma OnlineScoreSorted()
    ensures SortedByName(OnlineScoreRequest.fields)
  {
    var fs := OnlineScoreRequest.fields;
    forall i, j | 0 <= i < j < |fs| ensures LexLess(fs[i].name, fs[j].name) {
      assert fs[i].name[0] < fs[j].name[0];
    }
  }

  lemma MethodRequestSorted()
    ensures SortedByName(MethodRequest.fields)
  {
    var fs := MethodRequest.fields;
    assert LexLess("account", "arguments") by {
      assert "account"[1..] == "ccount" && "arguments"[1..] == "rguments";
    }
    forall i, j | 0 <= i < j < |fs| && !(i == 0 && j == 1) ensures LexLess(fs[i].name, fs[j].name) {
      assert fs[i].name[0] < fs[j].name[0];
    }
  }

  /** The pair test of the integration suite: phone and gender alone are not a pair,
      birthday and gender are. */
  lemma PairExamples()
    ensures !ValidateOnLineScoreFields({"phone", "gender"})
    ensures ValidateOnLineScoreFields({"birthday", "gender"})
  {
  }

  /** A value that is present in the sense of fields_set: given and not None. */
  predicate Present(data: map<string, Value>, name: string)
  {
    Get(data, name) != Null
  }

  /** When each argument passes its own field checks, OnlineScoreRequest is valid exactly
      when both fields of some pair are present (an empty string counts: it is not None),
      and fails with ConstrainError otherwise. */
  lemma OnlineScorePairRule(data: map<string, Value>, currentYear: int)
    requires forall k :: 0 <= k < |OnlineScoreRequest.fields| ==>
               Verdict(OnlineScoreRequest.fields[k], Get(data, OnlineScoreRequest.fields[k].name), currentYear) == Returned(None)
    ensures Validated(OnlineScoreRequest, data, currentYear).Returned?
    ensures var m := Validated(OnlineScoreRequest, data, currentYear).value;
      && (m.Valid? <==> || (Present(data, "first_name") && Present(data, "last_name"))
                        || (Present(data, "birthday") && Present(data, "gender"))
                        || (Present(data, "email") && Present(data, "phone")))
      && (!m.Valid? ==> m == Invalid(ConstrainError))
  {
    var fields := OnlineScoreRequest.fields;
    SchemasSorted();
    SortedDistinct(fields);
    AllAccepted(fields, data, currentYear);
    var t := Check(fields, data, currentYear).value;
    forall k | 0 <= k < |fields| ensures fields[k].name in t.fieldsSet <==> Present(data, fields[k].name) {
      CheckComplete(fields, data, currentYear, k);
    }
    assert fields[0].name == "birthday" && fields[1].name == "email" && fields[2].name == "first_name";
    assert fields[3].name == "gender" && fields[4].name == "last_name" && fields[5].name == "phone";
  }

  /** A valid ClientsInterestsRequest holds a non-empty list of ints under client_ids. */
  lemma ValidClientIds(data: map<string, Value>, currentYear: int)
    requires Validated(ClientsInterestsRequest, data, currentYear).Returned?
    requires Validated(ClientsInterestsRequest, data, currentYear).value.Valid?
    ensures var m := Validated(ClientsInterestsRequest, data, currentYear).value;
      "client_ids" in m.values && ClientIdsValid(m.values["client_ids"])
  {
    var fields := ClientsInterestsRequest.fields;
    SchemasSorted();
    SortedDistinct(fields);
    CheckComplete(fields, data, currentYear, 0);
    ValidModel(ClientsInterestsRequest, data, currentYear);
  }

  /** MethodRequest has no date field, so its __init__ never raises, and MethodRequest(**body)
      raises exactly when the body has a "self" key. */
  lemma MethodRequestRaisesOnSelf(data: map<string, Value>, currentYear: int)
    ensures Validated(MethodRequest, data, currentYear).Returned?
    ensures Construct(MethodRequest, data, currentYear).Raised? <==> "self" in data
  {
    CheckRaises(MethodRequest.fields, data, currentYear);
  }

  /** An empty method name is refused as a Required error (so the request gets 422, not 400). */
  lemma EmptyMethodIsRequiredError(data: map<string, Value>, currentYear: int)
    requires Get(data, "method") == Str("")
    ensures Validated(MethodRequest, data, currentYear).Returned?
    ensures var m := Validated(MethodRequest, data, currentYear).value;
      m.Invalid? && m.error.ValidationError? && FieldError(Required, "method") in m.error.errors
  {
    var fields := MethodRequest.fields;
    MethodRequestRaisesOnSelf(data, currentYear);
    SchemasSorted();
    SortedDistinct(fields);
    CheckComplete(fields, data, currentYear, 3);
  }

  /** An empty clients_interests argument object is refused for the missing client_ids alone. */
  lemma NoClientIdsExample(currentYear: int)
    ensures Validated(ClientsInterestsRequest, map[], currentYear)
         == Returned(Invalid(ValidationError([FieldError(Missing, "client_ids")])))
  {
    var fs := ClientsInterestsRequest.fields;
    var data: map<string, Value> := map[];
    var missing := FieldError(Missing, "client_ids");
    assert fs[0] == FieldSpec("client_ids", ClientIdsField, true, false);
    assert fs[..1][..0] == [];
    assert fs[..1] == [fs[0]];
    assert Check([], data, currentYear) == Returned(Tally(map[], {}, []));
    assert Get(data, "client_ids") == Null;
    assert Verdict(fs[0], Null, currentYear) == Returned(Some(Missing));
    assert Check(fs[..1], data, currentYear) == Step(Tally(map[], {}, []), fs[0], data, currentYear);
    var none: seq<FieldError> := [];
    assert none + [missing] == [missing];
    assert Step(Tally(map[], {}, none), fs[0], data, currentYear) == Returned(Tally(map[], {}, none + [missing]));
    assert Check(fs[..1], data, currentYear) == Returned(Tally(map[], {}, [missing]));
    assert Check(fs, data, currentYear) == Returned(Tally(map["date" := Null], {}, [missing]));
  }

  /** ClientsInterestsRequest built from data whose two fields get the verdicts e0 and e1:
      the errors are those verdicts' errors, client_ids first. */
  lemma ClientsInterestsErrors(data: map<string, Value>, currentYear: int, e0: Option<ErrorKind>, e1: Option<ErrorKind>)
    requires Verdict(ClientsInterestsRequest.fields[0], Get(data, "client_ids"), currentYear) == Returned(e0)
    requires Verdict(ClientsInterestsRequest.fields[1], Get(data, "date"), currentYear) == Returned(e1)
    requires e0.Some? || e1.Some?
    ensures Validated(ClientsInterestsRequest, data, currentYear) == Returned(Invalid(ValidationError(
              (if e0.Some? then [FieldError(e0.value, "client_ids")] else []) +
              (if e1.Some? then [FieldError(e1.value, "date")] else []))))
  {
    var fs := ClientsInterestsRequest.fields;
    var none: seq<FieldError> := [];
    var errors0 := if e0.Some? then [FieldError(e0.value, "client_ids")] else none;
    var errors1 := if e1.Some? then [FieldError(e1.value, "date")] else none;
    assert fs[..1][..0] == [];
    assert fs[..2] == fs;
    assert Check(fs[..0], data, currentYear) == Returned(Tally(map[], {}, none));
    assert none + errors0 == errors0;
    assert Check(fs[..1], data, currentYear).Returned?;
    var t := Check(fs[..1], data, currentYear).value;
    assert t.errors == errors0;
    assert Check(fs, data, currentYear).value.errors == errors0 + errors1;
  }

  /** ClientsInterestsRequest's client_ids field: Missing, Required, or the list check. */
  lemma ClientIdsVerdict(v: Value, currentYear: int)
    ensures Verdict(ClientsInterestsRequest.fields[0], v, currentYear) ==
      if v == Null then Returned(Some(Missing))
      else if !Truthy(v) then Returned(Some(Required))
      else if ClientIdsValid(v) then Returned(None)
      else Returned(Some(FieldType))
  {
  }

  /** A date with dashes is refused by the date field. */
  lemma DateFieldRejectsDashes(currentYear: int)
    ensures Verdict(ClientsInterestsRequest.fields[1], Str("20-04-1970"), currentYear) == Returned(Some(FieldType))
  {
    OtherSeparatorsRejected();
  }

  /** A date the date field accepts. */
  lemma DateFieldAccepts(currentYear: int)
    ensures Verdict(ClientsInterestsRequest.fields[1], Str("20.04.1970"), currentYear) == Returned(None)
  {
    var v := Str("20.04.1970");
    assert IsValid(DateField, v, currentYear) == Returned(true) by {
      DateAccepted();
    }
  }

  /** The empty client_ids list of the integration suite is refused as Required, and a
      valid date beside it changes nothing. */
  lemma EmptyClientIdsExample(currentYear: int)
    ensures Validated(ClientsInterestsRequest, map["client_ids" := List([]), "date" := Str("20.04.1970")], currentYear)
         == Returned(Invalid(ValidationError([FieldError(Required, "client_ids")])))
  {
    var data := map["client_ids" := List([]), "date" := Str("20.04.1970")];
    ClientIdsVerdict(List([]), currentYear);
    DateFieldAccepts(currentYear);
    assert Get(data, "client_ids") == List([]) && Get(data, "date") == Str("20.04.1970");
    ClientsInterestsErrors(data, currentYear, Some(Required), None);
    assert [FieldError(Required, "client_ids")] + [] == [FieldError(Required, "client_ids")];
  }

  /** client_ids given as strings is refused as a wrong type. */
  lemma StringClientIdsExample(currentYear: int)
    ensures Validated(ClientsInterestsRequest, map["client_ids" := List([Str("1"), Str("2")]), "date" := Str("20.04.1970")], currentYear)
         == Returned(Invalid(ValidationError([FieldError(FieldType, "client_ids")])))
  {
    var fs := ClientsInterestsRequest.fields;
    var ids := List([Str("1"), Str("2")]);
    var data := map["client_ids" := ids, "date" := Str("20.04.1970")];
    assert Verdict(fs[0], Get(data, "client_ids"), currentYear) == Returned(Some(FieldType)) by {
      assert Get(data, "client_ids") == ids;
      assert !IsInt(ids.items[0]);
      ClientIdsVerdict(ids, currentYear);
    }
    assert Verdict(fs[1], Get(data, "date"), currentYear) == Returned(None) by {
      assert Get(data, "date") == Str("20.04.1970");
      DateFieldAccepts(currentYear);
    }
    ClientsInterestsErrors(data, currentYear, Some(FieldType), None);
    assert [FieldError(FieldType, "client_ids")] + [] == [FieldError(FieldType, "client_ids")];
  }

  /** A date with dashes is refused as a wrong type, after valid client ids. */
  lemma DashedDateExample(currentYear: int)
    ensures Validated(ClientsInterestsRequest, map["client_ids" := List([Int(1), Int(2)]), "date" := Str("20-04-1970")], currentYear)
         == Returned(Invalid(ValidationError([FieldError(FieldType, "date")])))
  {
    var fs := ClientsInterestsRequest.fields;
    var ids := List([Int(1), Int(2)]);
    var data := map["client_ids" := ids, "date" := Str("20-04-1970")];
    assert Verdict(fs[0], Get(data, "client_ids"), currentYear) == Returned(None) by {
      assert Get(data, "client_ids") == ids;
      assert ClientIdsValid(ids) by {
        assert IsInt(ids.items[0]) && IsInt(ids.items[1]);
      }
      ClientIdsVerdict(ids, currentYear);
    }
    assert Verdict(fs[1], Get(data, "date"), currentYear) == Returned(Some(FieldType)) by {
      assert Get(data, "date") == Str("20-04-1970");
      DateFieldRejectsDashes(currentYear);
    }
    ClientsInterestsErrors(data, currentYear, None, Some(FieldType));
    assert [] + [FieldError(FieldType, "date")] == [FieldError(FieldType, "date")];
  }
}
