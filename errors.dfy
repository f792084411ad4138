/** The per-field errors that validation accumulates, and ValidationError.get_message,
    which groups them by kind for the response text. */
module FieldErrors {
  import opened Text

  /** MissingError, RequiredError and FieldTypeError of api.py. */
  datatype ErrorKind = Missing | Required | FieldType

  datatype FieldError = FieldError(kind: ErrorKind, field: string)

  /** The error_text class attribute of each kind. */
  function ErrorText(k: ErrorKind): string
  {
    match k
    case Missing => "Пропущены обязательные поля:"
    case Required => "Следующие поля не должны быть пустыми:"
    case FieldType => "Поля имеют не верный тип:"
  }

  /** One entry of the grouping dict: an error kind and the fields it was reported for. */
  datatype Group = Group(kind: ErrorKind, fields: seq<string>)

  /** The kinds occurring in es, each once, in order of first occurrence
      (the keys of the grouping dict, which keeps insertion order). */
  function Kinds(es: seq<FieldError>): seq<ErrorKind>
  {
    if es == [] then []
    else
      var ks := Kinds(es[..|es| - 1]);
      if es[|es| - 1].kind in ks then ks else ks + [es[|es| - 1].kind]
  }

  /** The fields of the errors of kind k, in the order the errors occur. */
  function FieldsOf(es: seq<FieldError>, k: ErrorKind): seq<string>
  {
    if es == [] then []
    else FieldsOf(es[..|es| - 1], k) + (if es[|es| - 1].kind == k then [es[|es| - 1].field] else [])
  }

  /** The grouping get_message builds: per kind in order of first occurrence, all its fields. */
  function Grouped(es: seq<FieldError>): (gs: seq<Group>)
    ensures |gs| == |Kinds(es)|
    ensures forall j :: 0 <= j < |gs| ==> gs[j] == Group(Kinds(es)[j], FieldsOf(es, Kinds(es)[j]))
  {
    var ks := Kinds(es);
    seq(|ks|, j requires 0 <= j < |ks| => Group(ks[j], FieldsOf(es, ks[j])))
  }

  /** "<error_text> ['f1', 'f2']" for one group. */
  function Line(g: Group): string
  {
    ErrorText(g.kind) + " " + NamesRepr(g.fields)
  }

  function Lines(gs: seq<Group>): (ls: seq<string>)
    ensures |ls| == |gs|
    ensures forall j :: 0 <= j < |gs| ==> ls[j] == Line(gs[j])
  {
    if gs == [] then [] else [Line(gs[0])] + Lines(gs[1..])
  }

  /** The message of a ValidationError: its groups' lines joined with ", ". */
  function Message(es: seq<FieldError>): string
  {
    Join(Lines(Grouped(es)), ", ")
  }

  /** The position of kind k among the groups, or |gs| when there is none (`error_text not in result`). */
  function Position(gs: seq<Group>, k: ErrorKind): (p: nat)
    ensures p <= |gs|
    ensures p < |gs| ==> gs[p].kind == k
    ensures forall j :: 0 <= j < p ==> gs[j].kind != k
  {
    if gs == [] then 0
    else if gs[0].kind == k then 0
    else 1 + Position(gs[1..], k)
  }

  /** ValidationError.get_message: the grouping loop, then the join. */
  method GetMessage(errors: seq<FieldError>) returns (msg: string)
    ensures msg == Message(errors)
  {
    var result: seq<Group> := [];
    var i := 0;
    while i < |errors|
      invariant 0 <= i <= |errors|
      invariant result == Grouped(errors[..i])
    {
      var err := errors[i];
      var p := Position(result, err.kind);
      GroupedPrefixStep(errors, i);
      if p == |result| {
        result := result + [Group(err.kind, [err.field])];
      } else {
        result := result[p := Group(err.kind, result[p].fields + [err.field])];
      }
      i := i + 1;
    }
    assert errors[..i] == errors;
    msg := Join(Lines(result), ", ");
  }

  /** Each kind is listed once. */
  lemma {:induction false} KindsDistinct(es: seq<FieldError>)
    ensures forall i, j :: 0 <= i < j < |Kinds(es)| ==> Kinds(es)[i] != Kinds(es)[j]
  {
    if es != [] {
      KindsDistinct(es[..|es| - 1]);
    }
  }

  /** The listed kinds are exactly the kinds that occur. */
  lemma {:induction false} KindsOccur(es: seq<FieldError>, k: ErrorKind)
    ensures k in Kinds(es) <==> exists i :: 0 <= i < |es| && es[i].kind == k
  {
    if es != [] {
      var init := es[..|es| - 1];
      KindsOccur(init, k);
      if exists i :: 0 <= i < |init| && init[i].kind == k {
        var i :| 0 <= i < |init| && init[i].kind == k;
        assert es[i].kind == k;
      }
      if exists i :: 0 <= i < |es| && es[i].kind == k {
        var i :| 0 <= i < |es| && es[i].kind == k;
        if i < |init| {
          assert init[i].kind == k;
        }
      }
    }
  }

  /** No error is lost: every error's field is listed under its kind. */
  lemma {:induction false} FieldsOfComplete(es: seq<FieldError>, i: nat)
    requires i < |es|
    ensures es[i].field in FieldsOf(es, es[i].kind)
  {
    var init := es[..|es| - 1];
    if i < |es| - 1 {
      FieldsOfComplete(init, i);
      assert init[i] == es[i];
    }
  }

  /** A kind that is not listed has no fields. */
  lemma {:induction false} FieldsOfAbsent(es: seq<FieldError>, k: ErrorKind)
    requires k !in Kinds(es)
    ensures FieldsOf(es, k) == []
  {
    if es != [] {
      FieldsOfAbsent(es[..|es| - 1], k);
    }
  }

  /** Adding one error to the grouping, as one turn of get_message's loop does. */
  lemma GroupedStep(es: seq<FieldError>, e: FieldError)
    ensures var gs := Grouped(es); var p := Position(gs, e.kind);
      Grouped(es + [e]) ==
        if p == |gs| then gs + [Group(e.kind, [e.field])]
        else gs[p := Group(e.kind, gs[p].fields + [e.field])]
  {
    var es' := es + [e];
    assert es'[..|es'| - 1] == es;
    var gs := Grouped(es);
    var p := Position(gs, e.kind);
    KindsDistinct(es);
    var ks := Kinds(es);
    if p == |gs| {
      assert e.kind !in ks;
      FieldsOfAbsent(es, e.kind);
      assert Kinds(es') == ks + [e.kind];
      forall j | 0 <= j < |ks|
        ensures Grouped(es')[j] == gs[j]
      {
        assert FieldsOf(es', ks[j]) == FieldsOf(es, ks[j]);
      }
      assert FieldsOf(es', e.kind) == [e.field];
      assert Grouped(es')[|ks|] == Group(e.kind, [e.field]);
    } else {
      assert e.kind in ks;
      forall j | 0 <= j < |ks| && j != p
        ensures FieldsOf(es', ks[j]) == FieldsOf(es, ks[j])
      {
        assert ks[j] != ks[p];
      }
    }
  }

  /** GroupedStep for the prefix of one more error: what one pass of the grouping loop does. */
  lemma GroupedPrefixStep(errors: seq<FieldError>, i: nat)
    requires i < |errors|
    ensures var gs := Grouped(errors[..i]); var e := errors[i]; var p := Position(gs, e.kind);
      Grouped(errors[..i + 1]) ==
        if p == |gs| then gs + [Group(e.kind, [e.field])]
        else gs[p := Group(e.kind, gs[p].fields + [e.field])]
  {
    assert errors[..i + 1] == errors[..i] + [errors[i]];
    GroupedStep(errors[..i], errors[i]);
  }

  /** A list with errors has a non-empty message: its first kind's line leads it. */
  lemma MessageNonEmpty(es: seq<FieldError>)
    requires es != []
    ensures Message(es) != ""
  {
    KindsOccur(es, es[0].kind);
    var ls := Lines(Grouped(es));
    assert |ls| > 0 && |ls[0]| > 0;
    assert |Join(ls, ", ")| >= |ls[0]|;
  }

  /** The message of errors that form a single group is that group's line. */
  lemma OneGroupMessage(es: seq<FieldError>, g: Group)
    requires Grouped(es) == [g]
    ensures Message(es) == Line(g)
  {
    assert Lines([g]) == [Line(g)];
  }

  /** The repr of a one-name list. */
  lemma OneNameRepr(f: string)
    ensures NamesRepr([f]) == "['" + f + "']"
  {
    assert Quoted([f]) == ["'" + f + "'"];
  }

  /** The repr of a two-name list. */
  lemma TwoNamesRepr(a: string, b: string)
    ensures NamesRepr([a, b]) == "['" + a + "', '" + b + "']"
  {
    var q := Quoted([a, b]);
    assert q == ["'" + a + "'", "'" + b + "'"];
    assert q[1..] == [q[1]];
    assert Join(q, ", ") == q[0] + ", " + q[1];
  }

  /** A single error's message: its kind's text and the field in a one-element list. */
  lemma SingleErrorMessage(k: ErrorKind, f: string)
    ensures Message([FieldError(k, f)]) == ErrorText(k) + " ['" + f + "']"
  {
    var es := [FieldError(k, f)];
    assert Grouped(es) == [Group(k, [f])] by {
      assert es[..0] == [];
      assert Kinds(es) == [k];
      assert FieldsOf(es, k) == [f];
    }
    OneGroupMessage(es, Group(k, [f]));
    OneNameRepr(f);
  }

  /** The message of the test suite for a missing client_ids. */
  lemma MissingClientIdsMessage()
    ensures Message([FieldError(Missing, "client_ids")]) == "Пропущены обязательные поля: ['client_ids']"
  {
    SingleErrorMessage(Missing, "client_ids");
  }

  /** The message of the test suite for an empty client_ids list. */
  lemma EmptyClientIdsMessage()
    ensures Message([FieldError(Required, "client_ids")]) == "Следующие поля не должны быть пустыми: ['client_ids']"
  {
    SingleErrorMessage(Required, "client_ids");
  }

  /** Two errors of one kind share one group, in the order they were found. */
  lemma TwoErrorsOneKindMessage(k: ErrorKind, a: string, b: string)
    ensures Message([FieldError(k, a), FieldError(k, b)]) == ErrorText(k) + " " + ("['" + a + "', '" + b + "']")
  {
    var es := [FieldError(k, a), FieldError(k, b)];
    var g := Group(k, [a, b]);
    assert Grouped(es) == [g] by {
      var e0 := es[..1];
      assert e0 == [FieldError(k, a)] && e0[..0] == [] && es[..|es| - 1] == e0;
      assert Kinds(e0) == [k];
      assert Kinds(es) == [k];
      assert FieldsOf(e0, k) == [a];
      assert FieldsOf(es, k) == [a, b];
    }
    OneGroupMessage(es, g);
    TwoNamesRepr(a, b);
  }

  /** The message of the test suite for a wrong gender and a wrong phone. */
  lemma TwoWrongTypesMessage()
    ensures Message([FieldError(FieldType, "gender"), FieldError(FieldType, "phone")])
            == "Поля имеют не верный тип: ['gender', 'phone']"
  {
    TwoErrorsOneKindMessage(FieldType, "gender", "phone");
    GenderPhoneNames();
    FieldTypeLine();
  }

  /** Literal steps of TwoWrongTypesMessage, kept apart so each is checked on its own. */
  lemma GenderPhoneNames()
    ensures "['" + "gender" + "', '" + "phone" + "']" == "['gender', 'phone']"
  {
  }

  lemma FieldTypeLine()
    ensures ErrorText(FieldType) + " " + "['gender', 'phone']" == "Поля имеют не верный тип: ['gender', 'phone']"
  {
  }
}
