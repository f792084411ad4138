/** The request handling of api.py: authentication of a MethodRequest, the two
    scoring methods with their context entries, and method_handler's choice of
    status.  The collaborators the handler calls but does not define (the clock,
    SHA-512, scoring.get_score and scoring.get_interests) are fields of an Env. */
module Api {
  import opened Outcomes
  import opened Text
  import opened Json
  import opened Fields
  import opened FieldErrors
  import opened Models
  import opened Requests

  const Salt: string := "Otus"
  const AdminLogin: string := "admin"
  const AdminSalt: string := "42"
  const AdminScore: int := 42

  const Ok: int := 200
  const BadRequest: int := 400
  const Forbidden: int := 403
  const NotFound: int := 404
  const InvalidRequest: int := 422
  const InternalError: int := 500

  /** ERRORS: the default text of each error status. */
  const Errors: map<int, string> := map[
    BadRequest := "Bad Request",
    Forbidden := "Forbidden",
    NotFound := "Not Found",
    InvalidRequest := "Invalid Request",
    InternalError := "Internal Server Error"]

  /** What the handler takes from outside: the clock, the hash and the scoring functions. */
  datatype Env = Env(
    currentYear: int,                        // datetime.now().year, for the birthday rule
    currentHour: string,                     // datetime.now().strftime("%Y%m%d%H"), for the admin token
    sha512: string -> string,                // hashlib.sha512(text.encode()).hexdigest()
    getScore: map<string, Value> -> Outcome<Value>, // scoring.get_score(store, **arguments)
    getInterests: int -> Outcome<Value>)     // scoring.get_interests(store, client_id)

  /** A reply of method_handler: the response (or error text) and the status code. */
  datatype Reply = Reply(payload: Value, code: int)

  /** get_error: the given message when it is not empty, ERRORS' text otherwise. */
  function GetError(code: int, message: string): (r: Reply)
    requires code in Errors
    ensures r.code == code
    ensures r.payload.Str? && r.payload.s != ""
    ensures message != "" ==> r.payload == Str(message)
    ensures message == "" ==> r.payload == Str(Errors[code])
  {
    if message != "" then Reply(Str(message), code) else Reply(Str(Errors[code]), code)
  }

  // ---- authentication ----

  /** MethodRequest.is_admin. */
  predicate IsAdmin(values: map<string, Value>)
  {
    Get(values, "login") == Str(AdminLogin)
  }

  /** The digest check_auth expects: of the hour and ADMIN_SALT for the admin, of account,
      login and SALT for anyone else; joining a non-str account or login raises TypeError. */
  function ExpectedDigest(values: map<string, Value>, env: Env): (r: Outcome<string>)
    ensures r.Raised? <==> !IsAdmin(values) && !(Get(values, "account").Str? && Get(values, "login").Str?)
    ensures r.Raised? ==> r.exc == TypeError
    ensures IsAdmin(values) ==> r == Returned(env.sha512(env.currentHour + AdminSalt))
    ensures !IsAdmin(values) && Get(values, "account").Str? && Get(values, "login").Str? ==>
              r == Returned(env.sha512(Get(values, "account").s + Get(values, "login").s + Salt))
  {
    if IsAdmin(values) then Returned(env.sha512(env.currentHour + AdminSalt))
    else if Get(values, "account").Str? && Get(values, "login").Str? then
      Returned(env.sha512(Get(values, "account").s + Get(values, "login").s + Salt))
    else Raised(TypeError)
  }

  /** check_auth: the token must be the expected digest, as a str. */
  function CheckAuth(values: map<string, Value>, env: Env): (r: Outcome<bool>)
    ensures r.Raised? <==> ExpectedDigest(values, env).Raised?
    ensures r == Returned(true) <==>
              ExpectedDigest(values, env).Returned? && Get(values, "token") == Str(ExpectedDigest(values, env).value)
  {
    match ExpectedDigest(values, env)
    case Raised(e) => Raised(e)
    case Returned(digest) => Returned(Str(digest) == Get(values, "token"))
  }

  // ---- the request context ----

  /** The values the handlers record in the request context. */
  datatype CtxValue =
    | RequestId(id: string)       // "request_id", set by the HTTP layer
    | FieldNames(names: set<string>) // "has" of a valid OnlineScoreRequest: its fields_set
    | MemberTable                 // "has" of an invalid OnlineScoreRequest: the class's reflected members
    | Count(n: nat)               // "nclients"

  /** The ctx dict the HTTP layer passes to the handlers. */
  class Context {
    var entries: map<string, CtxValue>

    constructor (requestId: string)
      ensures entries == map["request_id" := RequestId(requestId)]
    {
      entries := map["request_id" := RequestId(requestId)];
    }

    /** update_context: ctx.update(arguments.get_context()). */
    method Update(context: map<string, CtxValue>)
      modifies this
      ensures entries == old(entries) + context
    {
      entries := entries + context;
    }
  }

  // ---- the two methods ----

  /** What a method returns to method_handler: its response and the arguments' error, if any. */
  datatype Answer = Answer(response: Value, error: Option<ModelError>)

  /** A result with the entries it adds to the context. */
  datatype Effect<T> = Effect(result: Outcome<T>, context: map<string, CtxValue>)

  /** The argument dict of a request: `arguments` when it is a dict, otherwise empty. */
  function ArgumentsOf(values: map<string, Value>): (args: map<string, Value>)
    ensures Get(values, "arguments").Obj? ==> args == Get(values, "arguments").fields
    ensures !Get(values, "arguments").Obj? ==> args == map[]
  {
    if Get(values, "arguments").Obj? then Get(values, "arguments").fields else map[]
  }

  /** The model's error attribute. */
  function ErrorOf(m: Model): Option<ModelError>
  {
    if m.Invalid? then Some(m.error) else None
  }

  /** OnlineScoreRequest.get_context(). */
  function HasEntry(m: Model): CtxValue
  {
    if m.Valid? then FieldNames(m.fieldsSet) else MemberTable
  }

  /** The keyword arguments online_score passes to get_score: the attributes that are in
      __fields__, which is fields_set for a valid model; an invalid model keeps no field
      attributes, so nothing is passed. */
  function ScoreArguments(m: Model): (kwargs: map<string, Value>)
    ensures m.Valid? ==> kwargs.Keys == m.fieldsSet * m.values.Keys
    ensures m.Valid? ==> forall n :: n in kwargs ==> kwargs[n] == m.values[n]
    ensures m.Invalid? ==> kwargs == map[]
  {
    if m.Valid? then map n | n in m.values && n in m.fieldsSet :: m.values[n] else map[]
  }

  /** online_score: context "has", the score (ADMIN_SCORE for the admin, get_score
      otherwise, whose exception propagates) and the arguments' error. get_score is
      called even when the arguments are invalid, then with no keyword arguments. */
  function OnlineScoreSpec(values: map<string, Value>, env: Env): Effect<Answer>
  {
    match Construct(OnlineScoreRequest, ArgumentsOf(values), env.currentYear)
    case Raised(e) => Effect(Raised(e), map[])
    case Returned(m) =>
      var context := map["has" := HasEntry(m)];
      if IsAdmin(values) then Effect(Returned(Answer(Obj(map["score" := Int(AdminScore)]), ErrorOf(m))), context)
      else
        match env.getScore(ScoreArguments(m))
        case Raised(e) => Effect(Raised(e), context)
        case Returned(score) => Effect(Returned(Answer(Obj(map["score" := score]), ErrorOf(m))), context)
  }

  /** The dict comprehension of clients_interests: get_interests for each id in list order,
      keyed by the id as JSON writes it; the first exception ends it. */
  function Interests(ids: seq<Value>, getInterests: int -> Outcome<Value>): Outcome<map<string, Value>>
    requires forall k :: 0 <= k < |ids| ==> IsInt(ids[k])
    decreases |ids|
  {
    if ids == [] then Returned(map[])
    else
      match Interests(ids[..|ids| - 1], getInterests)
      case Raised(e) => Raised(e)
      case Returned(acc) =>
        var id := IntOf(ids[|ids| - 1]);
        match getInterests(id)
        case Raised(e) => Raised(e)
        case Returned(v) => Returned(acc[IntString(id) := v])
  }

  /** clients_interests: context "nclients", then the interests of every client. An
      invalid request keeps the class's empty client_ids: nclients is 0 and nothing is fetched. */
  function ClientsInterestsSpec(values: map<string, Value>, env: Env): Effect<Answer>
  {
    match Construct(ClientsInterestsRequest, ArgumentsOf(values), env.currentYear)
    case Raised(e) => Effect(Raised(e), map[])
    case Returned(Invalid(err)) => Effect(Returned(Answer(Obj(map[]), Some(err))), map["nclients" := Count(0)])
    case Returned(Valid(vals, _)) =>
      ValidClientIds(ArgumentsOf(values), env.currentYear);
      var ids := vals["client_ids"].items;
      var context := map["nclients" := Count(|ids|)];
      match Interests(ids, env.getInterests)
      case Raised(e) => Effect(Raised(e), context)
      case Returned(interests) => Effect(Returned(Answer(Obj(interests), None)), context)
  }

  // ---- method_handler ----

  /** The end of method_handler: a KeyError from the method is answered 400, other
      exceptions propagate, and the response goes out with 200 unless the arguments
      had an error, which goes out with 422. */
  function Finish(e: Effect<Answer>): (h: Effect<Reply>)
    ensures e.result == Raised(KeyError) ==> h.result == Returned(Reply(Str("Bad Request"), BadRequest))
    ensures e.result.Raised? && e.result.exc != KeyError ==> h.result == Raised(e.result.exc)
    ensures e.result.Returned? && e.result.value.error.None? ==> h.result == Returned(Reply(e.result.value.response, Ok))
    ensures e.result.Returned? && e.result.value.error.Some? ==>
              var message := ErrorMessage(e.result.value.error.value);
              h.result == Returned(Reply(Str(if message != "" then message else "Invalid Request"), InvalidRequest))
    ensures h.result.Returned? ==> h.result.value.code in {Ok, BadRequest, InvalidRequest}
    ensures h.context == e.context
  {
    match e.result
    case Raised(KeyError) => Effect(Returned(GetError(BadRequest, "")), e.context)
    case Raised(x) => Effect(Raised(x), e.context)
    case Returned(a) =>
      if a.error.None? then Effect(Returned(Reply(a.response, Ok)), e.context)
      else Effect(Returned(GetError(InvalidRequest, ErrorMessage(a.error.value))), e.context)
  }

  /** The part of method_handler after authentication: run the named method, or answer
      400 for an unknown one. */
  function Dispatch(values: map<string, Value>, env: Env): (h: Effect<Reply>)
    ensures h.result.Returned? ==> h.result.value.code in {Ok, BadRequest, InvalidRequest}
  {
    if Get(values, "method") == Str("online_score") then Finish(OnlineScoreSpec(values, env))
    else if Get(values, "method") == Str("clients_interests") then Finish(ClientsInterestsSpec(values, env))
    else Effect(Returned(GetError(BadRequest, "")), map[])
  }

  /** The request passed authentication: its body is a dict, the MethodRequest built from
      it is valid and check_auth accepts it. */
  predicate Authorized(request: map<string, Value>, env: Env)
  {
    var body := Get(request, "body");
    && body.Obj?
    && Construct(MethodRequest, body.fields, env.currentYear).Returned?
    && Construct(MethodRequest, body.fields, env.currentYear).value.Valid?
    && CheckAuth(Construct(MethodRequest, body.fields, env.currentYear).value.values, env) == Returned(true)
  }

  /** method_handler on a request dict: the reply (or exception) and the context it adds.
      Its statuses are 200, 400, 403 and 422; neither a 200 nor a context entry is
      produced for a request that did not pass authentication. */
  function Handle(request: map<string, Value>, env: Env): (h: Effect<Reply>)
    ensures h.result.Returned? ==> h.result.value.code in {Ok, BadRequest, Forbidden, InvalidRequest}
    ensures h.result.Returned? && h.result.value.code == Ok ==> Authorized(request, env)
    ensures h.context != map[] ==> Authorized(request, env)
  {
    var body := Get(request, "body");
    if !Truthy(body) then Effect(Returned(GetError(InvalidRequest, "")), map[])
    else if !body.Obj? then Effect(Raised(TypeError), map[])
    else
      match Construct(MethodRequest, body.fields, env.currentYear)
      case Raised(e) => Effect(Raised(e), map[])
      case Returned(Invalid(err)) => Effect(Returned(GetError(InvalidRequest, ErrorMessage(err))), map[])
      case Returned(Valid(values, _)) =>
        match CheckAuth(values, env)
        case Raised(e) => Effect(Raised(e), map[])
        case Returned(false) => Effect(Returned(GetError(Forbidden, "")), map[])
        case Returned(true) => Dispatch(values, env)
  }

  // ---- the handlers as the code runs them ----

  /** The argument class of a known method. */
  function ArgumentsClass(methodName: Value): Schema
    requires methodName == Str("online_score") || methodName == Str("clients_interests")
  {
    if methodName == Str("online_score") then OnlineScoreRequest else ClientsInterestsRequest
  }

  /** get_arguments_and_error: the method's argument class called with the arguments dict. */
  method GetArgumentsAndError(values: map<string, Value>, env: Env) returns (arguments: Outcome<Model>)
    requires Get(values, "method") == Str("online_score") || Get(values, "method") == Str("clients_interests")
    ensures arguments == Construct(ArgumentsClass(Get(values, "method")), ArgumentsOf(values), env.currentYear)
  {
    var dataArguments: map<string, Value> := map[];
    if Get(values, "arguments").Obj? {
      dataArguments := Get(values, "arguments").fields;
    }
    if "self" in dataArguments {
      return Raised(TypeError);
    }
    arguments := InitModel(ArgumentsClass(Get(values, "method")), dataArguments, env.currentYear);
  }

  /** online_score. */
  method OnlineScore(values: map<string, Value>, ctx: Context, env: Env) returns (r: Outcome<Answer>)
    requires Get(values, "method") == Str("online_score")
    modifies ctx
    ensures r == OnlineScoreSpec(values, env).result
    ensures ctx.entries == old(ctx.entries) + OnlineScoreSpec(values, env).context
  {
    var arguments := GetArgumentsAndError(values, env);
    if arguments.Raised? {
      assert ctx.entries + map[] == ctx.entries;
      return Raised(arguments.exc);
    }
    var m := arguments.value;
    ctx.Update(map["has" := HasEntry(m)]);
    var score := Int(AdminScore);
    if Get(values, "login") != Str(AdminLogin) {
      var scored := env.getScore(ScoreArguments(m));
      if scored.Raised? {
        return Raised(scored.exc);
      }
      score := scored.value;
    }
    r := Returned(Answer(Obj(map["score" := score]), ErrorOf(m)));
  }

  /** clients_interests: the interests are fetched one client at a time. */
  method ClientsInterests(values: map<string, Value>, ctx: Context, env: Env) returns (r: Outcome<Answer>)
    requires Get(values, "method") == Str("clients_interests")
    modifies ctx
    ensures r == ClientsInterestsSpec(values, env).result
    ensures ctx.entries == old(ctx.entries) + ClientsInterestsSpec(values, env).context
  {
    var arguments := GetArgumentsAndError(values, env);
    if arguments.Raised? {
      assert ctx.entries + map[] == ctx.entries;
      return Raised(arguments.exc);
    }
    var m := arguments.value;
    var ids: seq<Value> := [];
    if m.Valid? {
      ValidClientIds(ArgumentsOf(values), env.currentYear);
      ids := m.values["client_ids"].items;
    }
    ctx.Update(map["nclients" := Count(|ids|)]);
    var interests := FetchInterests(ids, env.getInterests);
    if interests.Raised? {
      return Raised(interests.exc);
    }
    r := Returned(Answer(Obj(interests.value), ErrorOf(m)));
  }

  /** The dict comprehension of clients_interests as the loop it runs: one get_interests
      call per id in list order, stopping at the first exception. */
  method FetchInterests(ids: seq<Value>, getInterests: int -> Outcome<Value>) returns (r: Outcome<map<string, Value>>)
    requires forall k :: 0 <= k < |ids| ==> IsInt(ids[k])
    ensures r == Interests(ids, getInterests)
  {
    var interests: map<string, Value> := map[];
    var i := 0;
    while i < |ids|
      invariant 0 <= i <= |ids|
      invariant Interests(ids[..i], getInterests) == Returned(interests)
    {
      var id := IntOf(ids[i]);
      var fetched := getInterests(id);
      InterestsPrefixStep(ids, i, getInterests);
      if fetched.Raised? {
        InterestsRaisedExtends(ids, i + 1, getInterests);
        return Raised(fetched.exc);
      }
      interests := interests[IntString(id) := fetched.value];
      i := i + 1;
    }
    assert ids[..i] == ids;
    r := Returned(interests);
  }

  /** method_handler. */
  method MethodHandler(request: map<string, Value>, ctx: Context, env: Env) returns (r: Outcome<Reply>)
    modifies ctx
    ensures r == Handle(request, env).result
    ensures ctx.entries == old(ctx.entries) + Handle(request, env).context
  {
    assert ctx.entries + map[] == ctx.entries;
    var body := Get(request, "body");
    if !Truthy(body) {
      return Returned(GetError(InvalidRequest, ""));
    }
    if !body.Obj? {
      return Raised(TypeError);
    }
    if "self" in body.fields {
      return Raised(TypeError);
    }
    var data := InitModel(MethodRequest, body.fields, env.currentYear);
    if data.Raised? {
      return Raised(data.exc);
    }
    if data.value.Invalid? {
      var message := GetErrorMessage(data.value.error);
      return Returned(GetError(InvalidRequest, message));
    }
    var values := data.value.values;
    var auth := CheckAuth(values, env);
    if auth.Raised? {
      return Raised(auth.exc);
    }
    if !auth.value {
      return Returned(GetError(Forbidden, ""));
    }
    assert Handle(request, env) == Dispatch(values, env);
    var answer: Outcome<Answer>;
    if Get(values, "method") == Str("online_score") {
      answer := OnlineScore(values, ctx, env);
    } else if Get(values, "method") == Str("clients_interests") {
      answer := ClientsInterests(values, ctx, env);
    } else {
      return Returned(GetError(BadRequest, ""));
    }
    if answer.Raised? {
      if answer.exc == KeyError {
        return Returned(GetError(BadRequest, ""));
      }
      return Raised(answer.exc);
    }
    if answer.value.error.None? {
      return Returned(Reply(answer.value.response, Ok));
    }
    var message := GetErrorMessage(answer.value.error.value);
    r := Returned(GetError(InvalidRequest, message));
  }

  // ---- properties of the interests lookup ----

  /** Once a prefix of the ids raised, the whole comprehension raises the same exception. */
  lemma {:induction false} InterestsRaisedExtends(ids: seq<Value>, i: nat, getInterests: int -> Outcome<Value>)
    requires forall k :: 0 <= k < |ids| ==> IsInt(ids[k])
    requires i <= |ids|
    requires Interests(ids[..i], getInterests).Raised?
    ensures Interests(ids, getInterests) == Interests(ids[..i], getInterests)
    decreases |ids| - i
  {
    if i < |ids| {
      assert ids[..i + 1][..i] == ids[..i];
      InterestsRaisedExtends(ids, i + 1, getInterests);
    } else {
      assert ids[..i] == ids;
    }
  }

  /** What one pass of the comprehension's loop adds to a prefix that returned. */
  lemma InterestsPrefixStep(ids: seq<Value>, i: nat, getInterests: int -> Outcome<Value>)
    requires forall k :: 0 <= k < |ids| ==> IsInt(ids[k])
    requires i < |ids|
    requires Interests(ids[..i], getInterests).Returned?
    ensures var id := IntOf(ids[i]); var acc := Interests(ids[..i], getInterests).value;
      Interests(ids[..i + 1], getInterests) ==
        if getInterests(id).Raised? then Raised(getInterests(id).exc)
        else Returned(acc[IntString(id) := getInterests(id).value])
  {
    assert ids[..i + 1][..i] == ids[..i];
  }

  /** The comprehension returns exactly when get_interests returns for every id. */
  lemma {:induction false} InterestsReturned(ids: seq<Value>, getInterests: int -> Outcome<Value>)
    requires forall k :: 0 <= k < |ids| ==> IsInt(ids[k])
    ensures Interests(ids, getInterests).Returned? <==>
              forall k :: 0 <= k < |ids| ==> getInterests(IntOf(ids[k])).Returned?
    decreases |ids|
  {
    if ids != [] {
      var init := ids[..|ids| - 1];
      var last := |ids| - 1;
      InterestsReturned(init, getInterests);
      if Interests(ids, getInterests).Returned? {
        forall k | 0 <= k < |ids| ensures getInterests(IntOf(ids[k])).Returned? {
          if k < last {
            assert init[k] == ids[k];
          }
        }
      }
      if forall k :: 0 <= k < |ids| ==> getInterests(IntOf(ids[k])).Returned? {
        forall k | 0 <= k < |init| ensures getInterests(IntOf(init[k])).Returned? {
          assert init[k] == ids[k];
        }
        assert Interests(init, getInterests).Returned? && getInterests(IntOf(ids[last])).Returned?;
      }
    }
  }

  /** A returned comprehension maps the key of every id, and only those. */
  lemma {:induction false} InterestsKeys(ids: seq<Value>, getInterests: int -> Outcome<Value>)
    requires forall k :: 0 <= k < |ids| ==> IsInt(ids[k])
    requires Interests(ids, getInterests).Returned?
    ensures Interests(ids, getInterests).value.Keys == (set k | 0 <= k < |ids| :: IntString(IntOf(ids[k])))
    decreases |ids|
  {
    if ids != [] {
      var init := ids[..|ids| - 1];
      InterestsStep(ids, getInterests);
      InterestsKeys(init, getInterests);
      IdKeysStep(ids);
    }
  }

  /** The keys of all ids are those of all but the last id and the last id's key. */
  lemma IdKeysStep(ids: seq<Value>)
    requires forall k :: 0 <= k < |ids| ==> IsInt(ids[k])
    requires ids != []
    ensures var init := ids[..|ids| - 1];
      (set k | 0 <= k < |ids| :: IntString(IntOf(ids[k])))
      == (set k | 0 <= k < |init| :: IntString(IntOf(init[k]))) + {IntString(IntOf(ids[|ids| - 1]))}
  {
    IdKeysOfInit(ids);
    IdKeysFromInit(ids);
  }

  /** Each key of all ids is the key of an id before the last, or the last id's. */
  lemma IdKeysOfInit(ids: seq<Value>)
    requires forall k :: 0 <= k < |ids| ==> IsInt(ids[k])
    requires ids != []
    ensures var init := ids[..|ids| - 1];
      (set k | 0 <= k < |ids| :: IntString(IntOf(ids[k])))
      <= (set k | 0 <= k < |init| :: IntString(IntOf(init[k]))) + {IntString(IntOf(ids[|ids| - 1]))}
  {
    var init := ids[..|ids| - 1];
    forall k | 0 <= k < |init|
      ensures IntString(IntOf(ids[k])) in (set k | 0 <= k < |init| :: IntString(IntOf(init[k])))
    {
      assert init[k] == ids[k];
    }
  }

  /** The keys of the ids before the last, and the last id's, are keys of all ids. */
  lemma IdKeysFromInit(ids: seq<Value>)
    requires forall k :: 0 <= k < |ids| ==> IsInt(ids[k])
    requires ids != []
    ensures var init := ids[..|ids| - 1];
      (set k | 0 <= k < |init| :: IntString(IntOf(init[k]))) + {IntString(IntOf(ids[|ids| - 1]))}
      <= (set k | 0 <= k < |ids| :: IntString(IntOf(ids[k])))
  {
    var init := ids[..|ids| - 1];
    forall k | 0 <= k < |init|
      ensures IntString(IntOf(init[k])) in (set k | 0 <= k < |ids| :: IntString(IntOf(ids[k])))
    {
      assert init[k] == ids[k];
    }
  }

  /** One more id: the comprehension over ids returns when the one over all but the last id
      returns and so does the last lookup, and adds that lookup under the last id's key. */
  lemma InterestsStep(ids: seq<Value>, getInterests: int -> Outcome<Value>)
    requires forall k :: 0 <= k < |ids| ==> IsInt(ids[k])
    requires ids != []
    requires Interests(ids, getInterests).Returned?
    ensures var init := ids[..|ids| - 1];
      var last := IntOf(ids[|ids| - 1]);
      && Interests(init, getInterests).Returned?
      && getInterests(last).Returned?
      && Interests(ids, getInterests).value == Interests(init, getInterests).value[IntString(last) := getInterests(last).value]
  {
  }

  /** A returned comprehension holds, under each id's key, that id's interests (an id
      listed twice is fetched twice and gets the same entry). */
  lemma {:induction false} InterestsValues(ids: seq<Value>, getInterests: int -> Outcome<Value>, k: nat)
    requires forall k :: 0 <= k < |ids| ==> IsInt(ids[k])
    requires Interests(ids, getInterests).Returned?
    requires k < |ids|
    ensures getInterests(IntOf(ids[k])).Returned?
    ensures IntString(IntOf(ids[k])) in Interests(ids, getInterests).value
    ensures Interests(ids, getInterests).value[IntString(IntOf(ids[k]))] == getInterests(IntOf(ids[k])).value
    decreases |ids|
  {
    var init := ids[..|ids| - 1];
    var last := IntOf(ids[|ids| - 1]);
    InterestsStep(ids, getInterests);
    if k < |init| && IntString(IntOf(ids[k])) != IntString(last) {
      assert init[k] == ids[k];
      InterestsValues(init, getInterests, k);
    } else if k < |init| {
      IntStringInjective(IntOf(ids[k]), last);
    }
  }

  /** When the comprehension raises, its exception is that of the first id whose lookup raised. */
  lemma {:induction false} InterestsRaisedFirst(ids: seq<Value>, getInterests: int -> Outcome<Value>)
    requires forall k :: 0 <= k < |ids| ==> IsInt(ids[k])
    requires Interests(ids, getInterests).Raised?
    ensures exists k :: && 0 <= k < |ids|
                        && getInterests(IntOf(ids[k])) == Raised(Interests(ids, getInterests).exc)
                        && forall j :: 0 <= j < k ==> getInterests(IntOf(ids[j])).Returned?
    decreases |ids|
  {
    var init := ids[..|ids| - 1];
    var e := Interests(ids, getInterests).exc;
    if Interests(init, getInterests).Raised? {
      assert Interests(init, getInterests).exc == e;
      InterestsRaisedFirst(init, getInterests);
      var k :| && 0 <= k < |init|
               && getInterests(IntOf(init[k])) == Raised(e)
               && forall j :: 0 <= j < k ==> getInterests(IntOf(init[j])).Returned?;
      assert getInterests(IntOf(ids[k])) == Raised(e)
             && forall j :: 0 <= j < k ==> getInterests(IntOf(ids[j])).Returned? by {
        assert forall j :: 0 <= j <= k ==> init[j] == ids[j];
      }
    } else {
      var k := |ids| - 1;
      assert getInterests(IntOf(ids[k])) == Raised(e);
      assert forall j :: 0 <= j < k ==> getInterests(IntOf(ids[j])).Returned? by {
        InterestsReturned(init, getInterests);
        assert forall j :: 0 <= j < k ==> init[j] == ids[j];
      }
    }
  }

  // ---- properties of method_handler ----

  /** The validated MethodRequest values of a request that passed authentication. */
  function RequestValues(request: map<string, Value>, env: Env): map<string, Value>
    requires Authorized(request, env)
  {
    Construct(MethodRequest, Get(request, "body").fields, env.currentYear).value.values
  }

  /** An authenticated request is answered by Dispatch. */
  lemma HandleAuthorized(request: map<string, Value>, env: Env)
    requires Authorized(request, env)
    ensures Handle(request, env) == Dispatch(RequestValues(request, env), env)
  {
  }

  /** A request without a (truthy) body is answered 422 with the default text. */
  lemma EmptyBodyReply(request: map<string, Value>, env: Env)
    requires !Truthy(Get(request, "body"))
    ensures Handle(request, env) == Effect(Returned(Reply(Str("Invalid Request"), InvalidRequest)), map[])
  {
  }

  /** A wrong token is answered 403 "Forbidden" and the context is left alone. */
  lemma WrongTokenReply(request: map<string, Value>, env: Env)
    requires Get(request, "body").Obj?
    requires Construct(MethodRequest, Get(request, "body").fields, env.currentYear).Returned?
    requires Construct(MethodRequest, Get(request, "body").fields, env.currentYear).value.Valid?
    requires CheckAuth(Construct(MethodRequest, Get(request, "body").fields, env.currentYear).value.values, env) == Returned(false)
    ensures Handle(request, env) == Effect(Returned(Reply(Str("Forbidden"), Forbidden)), map[])
  {
  }

  /** A valid MethodRequest keeps the token it was given. */
  lemma TokenKept(data: map<string, Value>, currentYear: int)
    requires Validated(MethodRequest, data, currentYear).Returned?
    requires Validated(MethodRequest, data, currentYear).value.Valid?
    ensures Get(Validated(MethodRequest, data, currentYear).value.values, "token") == Get(data, "token")
  {
    SchemasSorted();
    SortedDistinct(MethodRequest.fields);
    ValidModel(MethodRequest, data, currentYear);
    assert MethodRequest.fields[4].name == "token";
  }

  /** The token is the only credential: if every digest is 128 hex characters, a request
      whose token is not such a str is never answered 200 and never touches the context. */
  lemma FailsClosed(request: map<string, Value>, env: Env)
    requires forall text :: |env.sha512(text)| == 128
    requires Get(request, "body").Obj?
    requires !(Get(Get(request, "body").fields, "token").Str? && |Get(Get(request, "body").fields, "token").s| == 128)
    ensures !Authorized(request, env)
    ensures Handle(request, env).context == map[]
    ensures Handle(request, env).result.Returned? ==> Handle(request, env).result.value.code != Ok
  {
    if Authorized(request, env) {
      TokenKept(Get(request, "body").fields, env.currentYear);
    }
  }

  /** An empty method name is refused by MethodRequest itself: the reply is 422, not 400
      (unless a "self" key makes the call raise first, see SelfKeyReply). */
  lemma EmptyMethodReply(request: map<string, Value>, env: Env)
    requires Get(request, "body").Obj?
    requires "self" !in Get(request, "body").fields
    requires Get(Get(request, "body").fields, "method") == Str("")
    ensures Handle(request, env).result.Returned?
    ensures Handle(request, env).result.value.code == InvalidRequest
    ensures Handle(request, env).context == map[]
  {
    EmptyMethodIsRequiredError(Get(request, "body").fields, env.currentYear);
  }

  /** An authenticated request for an unknown method is answered 400 "Bad Request". */
  lemma UnknownMethodReply(request: map<string, Value>, env: Env)
    requires Authorized(request, env)
    requires Get(RequestValues(request, env), "method") != Str("online_score")
    requires Get(RequestValues(request, env), "method") != Str("clients_interests")
    ensures Handle(request, env) == Effect(Returned(Reply(Str("Bad Request"), BadRequest)), map[])
  {
    HandleAuthorized(request, env);
  }

  /** The admin's score is ADMIN_SCORE whatever the scorer says, and the context records
      the fields that were set. */
  lemma AdminScoreReply(request: map<string, Value>, env: Env)
    requires Authorized(request, env)
    requires IsAdmin(RequestValues(request, env))
    requires Get(RequestValues(request, env), "method") == Str("online_score")
    requires Construct(OnlineScoreRequest, ArgumentsOf(RequestValues(request, env)), env.currentYear).Returned?
    requires Construct(OnlineScoreRequest, ArgumentsOf(RequestValues(request, env)), env.currentYear).value.Valid?
    ensures Handle(request, env).result == Returned(Reply(Obj(map["score" := Int(AdminScore)]), Ok))
    ensures Handle(request, env).context ==
              map["has" := FieldNames(Construct(OnlineScoreRequest, ArgumentsOf(RequestValues(request, env)), env.currentYear).value.fieldsSet)]
  {
    HandleAuthorized(request, env);
  }

  /** Arguments that each pass but form no complete pair get 422 with ConstrainError's
      text, once get_score, which a non-admin's request calls with no arguments, returns. */
  lemma NoPairReply(request: map<string, Value>, env: Env)
    requires Authorized(request, env)
    requires Get(RequestValues(request, env), "method") == Str("online_score")
    requires IsAdmin(RequestValues(request, env)) || env.getScore(map[]).Returned?
    requires var data := ArgumentsOf(RequestValues(request, env));
      && "self" !in data
      && (forall k :: 0 <= k < |OnlineScoreRequest.fields| ==>
            Verdict(OnlineScoreRequest.fields[k], Get(data, OnlineScoreRequest.fields[k].name), env.currentYear) == Returned(None))
      && !(Present(data, "first_name") && Present(data, "last_name"))
      && !(Present(data, "birthday") && Present(data, "gender"))
      && !(Present(data, "email") && Present(data, "phone"))
    ensures Handle(request, env).result == Returned(Reply(Str(ConstrainMessage), InvalidRequest))
    ensures Handle(request, env).context == map["has" := MemberTable]
  {
    HandleAuthorized(request, env);
    OnlineScorePairRule(ArgumentsOf(RequestValues(request, env)), env.currentYear);
  }

  /** The client ids of a valid ClientsInterestsRequest: the list given as client_ids. */
  lemma ValidInterestsAnswer(values: map<string, Value>, env: Env)
    requires Construct(ClientsInterestsRequest, ArgumentsOf(values), env.currentYear).Returned?
    requires Construct(ClientsInterestsRequest, ArgumentsOf(values), env.currentYear).value.Valid?
    ensures var ids := Get(ArgumentsOf(values), "client_ids");
      && ClientIdsValid(ids)
      && ClientsInterestsSpec(values, env).context == map["nclients" := Count(|ids.items|)]
      && ClientsInterestsSpec(values, env).result ==
           match Interests(ids.items, env.getInterests)
           case Raised(e) => Raised(e)
           case Returned(interests) => Returned(Answer(Obj(interests), None))
  {
    var data := ArgumentsOf(values);
    ValidClientIds(data, env.currentYear);
    SchemasSorted();
    SortedDistinct(ClientsInterestsRequest.fields);
    ValidModel(ClientsInterestsRequest, data, env.currentYear);
  }

  /** A valid clients_interests request whose lookups all succeed is answered 200 with a
      dict holding, under each client id's key, that client's interests, and the context
      counts the ids. */
  lemma InterestsReply(request: map<string, Value>, env: Env)
    requires Authorized(request, env)
    requires Get(RequestValues(request, env), "method") == Str("clients_interests")
    requires Construct(ClientsInterestsRequest, ArgumentsOf(RequestValues(request, env)), env.currentYear).Returned?
    requires Construct(ClientsInterestsRequest, ArgumentsOf(RequestValues(request, env)), env.currentYear).value.Valid?
    requires var ids := Get(ArgumentsOf(RequestValues(request, env)), "client_ids");
      ids.List? && forall k :: 0 <= k < |ids.items| ==> IsInt(ids.items[k]) && env.getInterests(IntOf(ids.items[k])).Returned?
    ensures var ids := Get(ArgumentsOf(RequestValues(request, env)), "client_ids").items;
      var h := Handle(request, env);
      && h.result.Returned?
      && h.result.value.code == Ok
      && h.result.value.payload.Obj?
      && h.result.value.payload.fields.Keys == (set k | 0 <= k < |ids| :: IntString(IntOf(ids[k])))
      && (forall k :: 0 <= k < |ids| ==>
            h.result.value.payload.fields[IntString(IntOf(ids[k]))] == env.getInterests(IntOf(ids[k])).value)
      && h.context == map["nclients" := Count(|ids|)]
  {
    HandleAuthorized(request, env);
    var values := RequestValues(request, env);
    var ids := Get(ArgumentsOf(values), "client_ids").items;
    ValidInterestsAnswer(values, env);
    InterestsReturned(ids, env.getInterests);
    InterestsKeys(ids, env.getInterests);
    var interests := Interests(ids, env.getInterests).value;
    assert ClientsInterestsSpec(values, env).result == Returned(Answer(Obj(interests), None));
    assert Handle(request, env) == Effect(Returned(Reply(Obj(interests), Ok)), map["nclients" := Count(|ids|)]);
    forall k | 0 <= k < |ids|
      ensures interests[IntString(IntOf(ids[k]))] == env.getInterests(IntOf(ids[k])).value
    {
      InterestsValues(ids, env.getInterests, k);
    }
  }

  /** A KeyError out of get_interests is caught by method_handler's handler for unknown
      methods and answered 400, with nclients already recorded. */
  lemma InterestsKeyErrorReply(request: map<string, Value>, env: Env)
    requires Authorized(request, env)
    requires Get(RequestValues(request, env), "method") == Str("clients_interests")
    requires ClientsInterestsSpec(RequestValues(request, env), env).result == Raised(KeyError)
    ensures Handle(request, env).result == Returned(Reply(Str("Bad Request"), BadRequest))
    ensures Handle(request, env).context == ClientsInterestsSpec(RequestValues(request, env), env).context
  {
    HandleAuthorized(request, env);
  }

  /** A body with a "self" key makes MethodRequest(**body) raise TypeError, whatever else it holds. */
  lemma SelfKeyReply(request: map<string, Value>, env: Env)
    requires Get(request, "body").Obj?
    requires "self" in Get(request, "body").fields
    ensures Handle(request, env) == Effect(Raised(TypeError), map[])
  {
  }

  /** An arguments dict with a "self" key makes the argument class raise TypeError before
      the context is updated. */
  lemma SelfArgumentReply(request: map<string, Value>, env: Env)
    requires Authorized(request, env)
    requires Get(RequestValues(request, env), "method") in {Str("online_score"), Str("clients_interests")}
    requires "self" in ArgumentsOf(RequestValues(request, env))
    ensures Handle(request, env) == Effect(Raised(TypeError), map[])
  {
    HandleAuthorized(request, env);
  }

  /** A body whose MethodRequest fails validation is answered 422 with the error's message,
      and the context is left alone. */
  lemma InvalidEnvelopeReply(request: map<string, Value>, env: Env)
    requires Get(request, "body").Obj? && Truthy(Get(request, "body"))
    requires Construct(MethodRequest, Get(request, "body").fields, env.currentYear).Returned?
    requires Construct(MethodRequest, Get(request, "body").fields, env.currentYear).value.Invalid?
    ensures Handle(request, env) == Effect(Returned(Reply(Str(ErrorMessage(
              Construct(MethodRequest, Get(request, "body").fields, env.currentYear).value.error)), InvalidRequest)), map[])
  {
    var body := Get(request, "body").fields;
    var err := Construct(MethodRequest, body, env.currentYear).value.error;
    ModelErrorMessage(MethodRequest, body, env.currentYear);
    assert Handle(request, env) == Effect(Returned(GetError(InvalidRequest, ErrorMessage(err))), map[]);
  }

  /** Invalid arguments of a known method are answered 422 with their error's message (once a
      non-admin's get_score call returns); online_score then records the class's member
      table as "has", clients_interests records nclients 0. */
  lemma InvalidArgumentsReply(request: map<string, Value>, env: Env)
    requires Authorized(request, env)
    requires Get(RequestValues(request, env), "method") in {Str("online_score"), Str("clients_interests")}
    requires Construct(ArgumentsClass(Get(RequestValues(request, env), "method")), ArgumentsOf(RequestValues(request, env)), env.currentYear).Returned?
    requires Construct(ArgumentsClass(Get(RequestValues(request, env), "method")), ArgumentsOf(RequestValues(request, env)), env.currentYear).value.Invalid?
    requires Get(RequestValues(request, env), "method") == Str("online_score") && !IsAdmin(RequestValues(request, env)) ==>
               env.getScore(map[]).Returned?
    ensures var err := Construct(ArgumentsClass(Get(RequestValues(request, env), "method")), ArgumentsOf(RequestValues(request, env)), env.currentYear).value.error;
      Handle(request, env).result == Returned(Reply(Str(ErrorMessage(err)), InvalidRequest))
    ensures Handle(request, env).context ==
              if Get(RequestValues(request, env), "method") == Str("online_score") then map["has" := MemberTable]
              else map["nclients" := Count(0)]
  {
    var values := RequestValues(request, env);
    HandleAuthorized(request, env);
    ModelErrorMessage(ArgumentsClass(Get(values, "method")), ArgumentsOf(values), env.currentYear);
  }

  /** The integration suite's empty client_ids list: 422 with the Required message, nclients 0. */
  lemma EmptyClientIdsReply(request: map<string, Value>, env: Env)
    requires Authorized(request, env)
    requires Get(RequestValues(request, env), "method") == Str("clients_interests")
    requires Get(RequestValues(request, env), "arguments") == Obj(map["client_ids" := List([]), "date" := Str("20.04.1970")])
    ensures Handle(request, env) ==
              Effect(Returned(Reply(Str("Следующие поля не должны быть пустыми: ['client_ids']"), InvalidRequest)),
                     map["nclients" := Count(0)])
  {
    var data := map["client_ids" := List([]), "date" := Str("20.04.1970")];
    var err := ValidationError([FieldError(Required, "client_ids")]);
    assert Construct(ClientsInterestsRequest, ArgumentsOf(RequestValues(request, env)), env.currentYear) == Returned(Invalid(err)) by {
      assert ArgumentsOf(RequestValues(request, env)) == data;
      assert "self" !in data;
      EmptyClientIdsExample(env.currentYear);
    }
    assert ErrorMessage(err) == "Следующие поля не должны быть пустыми: ['client_ids']" by {
      EmptyClientIdsMessage();
    }
    InvalidArgumentsReply(request, env);
  }

  /** The keyword arguments get_score receives for valid arguments: exactly the fields given
      with a value other than None, with that value. */
  lemma ScoreArgumentsGiven(data: map<string, Value>, currentYear: int)
    requires Construct(OnlineScoreRequest, data, currentYear).Returned?
    requires Construct(OnlineScoreRequest, data, currentYear).value.Valid?
    ensures var kwargs := ScoreArguments(Construct(OnlineScoreRequest, data, currentYear).value);
      && kwargs.Keys == (set n | n in Names(OnlineScoreRequest.fields) && Get(data, n) != Null)
      && forall n :: n in kwargs ==> kwargs[n] == Get(data, n)
  {
    SchemasSorted();
    SortedDistinct(OnlineScoreRequest.fields);
    ValidArguments(OnlineScoreRequest, data, currentYear);
  }

  /** The keyword arguments built from a valid model of any schema with distinct names. */
  lemma ValidArguments(s: Schema, data: map<string, Value>, currentYear: int)
    requires DistinctNames(s.fields)
    requires Construct(s, data, currentYear).Returned?
    requires Construct(s, data, currentYear).value.Valid?
    ensures var kwargs := ScoreArguments(Construct(s, data, currentYear).value);
      && kwargs.Keys == (set n | n in Names(s.fields) && Get(data, n) != Null)
      && forall n :: n in kwargs ==> kwargs[n] == Get(data, n)
  {
    ValidModel(s, data, currentYear);
  }

  /** A non-admin's valid online_score request is answered 200 with get_score's result
      as "score", and "has" records the fields that were set. */
  lemma ScoreReply(request: map<string, Value>, env: Env)
    requires Authorized(request, env)
    requires Get(RequestValues(request, env), "method") == Str("online_score")
    requires !IsAdmin(RequestValues(request, env))
    requires Construct(OnlineScoreRequest, ArgumentsOf(RequestValues(request, env)), env.currentYear).Returned?
    requires Construct(OnlineScoreRequest, ArgumentsOf(RequestValues(request, env)), env.currentYear).value.Valid?
    requires env.getScore(ScoreArguments(Construct(OnlineScoreRequest, ArgumentsOf(RequestValues(request, env)), env.currentYear).value)).Returned?
    ensures var m := Construct(OnlineScoreRequest, ArgumentsOf(RequestValues(request, env)), env.currentYear).value;
      && Handle(request, env).result == Returned(Reply(Obj(map["score" := env.getScore(ScoreArguments(m)).value]), Ok))
      && Handle(request, env).context == map["has" := FieldNames(m.fieldsSet)]
  {
    HandleAuthorized(request, env);
  }

  /** An exception from get_score reaches method_handler: a KeyError is answered 400, any
      other exception propagates; "has" is already recorded. */
  lemma ScoreFailureReply(request: map<string, Value>, env: Env)
    requires Authorized(request, env)
    requires Get(RequestValues(request, env), "method") == Str("online_score")
    requires !IsAdmin(RequestValues(request, env))
    requires Construct(OnlineScoreRequest, ArgumentsOf(RequestValues(request, env)), env.currentYear).Returned?
    requires env.getScore(ScoreArguments(Construct(OnlineScoreRequest, ArgumentsOf(RequestValues(request, env)), env.currentYear).value)).Raised?
    ensures var m := Construct(OnlineScoreRequest, ArgumentsOf(RequestValues(request, env)), env.currentYear).value;
      var x := env.getScore(ScoreArguments(m)).exc;
      && Handle(request, env).result == (if x == KeyError then Returned(Reply(Str("Bad Request"), BadRequest)) else Raised(x))
      && Handle(request, env).context == map["has" := HasEntry(m)]
  {
    HandleAuthorized(request, env);
  }
}
