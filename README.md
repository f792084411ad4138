# scoring-api in Dafny

This project models the core of the scoring API. Clients POST a JSON envelope naming a
method (`online_score` or `clients_interests`) with its arguments. The service does four
things with it:

- checks every field against a declarative field table (`BaseModel` and its field classes);
- reports all field errors together in one grouped message;
- authenticates the caller with a SHA-512 token;
- dispatches the request and picks the HTTP status.

The store layer behind it retries Redis calls with a growing backoff and reports a
missing key as `StoreKeyNotFound`. The test suite runs against a dict-backed `MockStore`.

Modules, one concern each:

| file | module | models |
|---|---|---|
| `outcomes.dfy` | `Outcomes` | `Option`; how a Python call ends: returned, or raised one of the core's exception classes |
| `json.dfy` | `Json` | the JSON values a body decodes to, as Python sees them (truthiness, `isinstance(_, int)`, `dict.get`) |
| `text.dfy` | `Text` | `str()` of an int and its inverse, splitting and joining, Python's string order, the repr of a list of names |
| `fields.dfy` | `Fields` | every `is_valid` of api.py, including `strptime('%d.%m.%Y')` and the birthday rule |
| `errors.dfy` | `FieldErrors` | the three error kinds and `ValidationError.get_message` |
| `models.dfy` | `Models` | `_validate_model` and `BaseModel.__init__` over an explicit field table |
| `requests.dfy` | `Requests` | the field tables of `ClientsInterestsRequest`, `OnlineScoreRequest` and `MethodRequest`, and the pair rule |
| `api.dfy` | `Api` | `check_auth`, `get_error`, the context, `online_score`, `clients_interests` and `method_handler` |
| `store.dfy` | `Store` | `trying_factory` and `RedisStore` |
| `mock_store.dfy` | `MockStores` | `MockStore` of tests/conftest.py |

Two kinds of member sit side by side:

- Loops and in-place updates stay imperative. These are:
  - the validation loop (`Models.ValidateModel`);
  - the message grouping (`FieldErrors.GetMessage`);
  - the retry loop (`Store.Trying`);
  - the interests loop (`Api.FetchInterests`, called by `Api.ClientsInterests`);
  - the two stores and the request context, which are classes.
- Each method is proved equal to a pure function:
  - `Check` and `Validated` for validation;
  - `Message` for the grouped message;
  - `Retries` and `Backoffs` for the retry loop;
  - `Interests`, `OnlineScoreSpec`, `ClientsInterestsSpec` and `Handle` for the handlers.

  The lemmas state their properties about those functions.

Python's behaviour is modelled as the code has it:

- `bool` is an `int`: `True` passes `GenderField` and `ClientIDsField`, and `True == 1`.
- `dict.get` gives `None` for an absent key.
- The field table lists the fields in name order, as `inspect.getmembers` yields them.
- The validators of `DateField` and `BirthDayField` raise `TypeError` on a truthy non-str value, because `strptime` does.
- `check_auth` raises `TypeError` when a non-admin's account or login is not a str.
- A `KeyError` raised inside a method handler, by `get_interests` or by `get_score`, is answered 400, like an unknown method.
- A request class is called with `**data`, so a key `"self"` collides with `__init__`'s own first parameter and raises `TypeError` before validation starts (`Models.Construct`). This holds for the body and for the arguments dict.
- For a non-admin, `online_score` calls `get_score` even when the arguments are invalid, then with no keyword arguments; what `get_score` raises is passed on like any other exception of the method.

Collaborators the core calls but does not define are parameters, gathered in `Api.Env`:

- the current year (for the birthday rule);
- the current hour string (for the admin token);
- `hashlib.sha512(...).hexdigest()`;
- `scoring.get_score`;
- `scoring.get_interests`.

A Redis command is described by the failures its successive attempts report.

Where the documentation and the code disagree, the model follows the code:

- A validator is expected to answer true or false: `is_valid` is declared to return `bool` (api.py:164). The date validators of api.py:171-180 and 208-215 raise `TypeError` on a truthy non-str value instead, because `strptime` does.
- The integration case at tests/integration/test_integration.py:19-22 expects 400 for `"method": ""`. The code refuses the empty, non-nullable `method` with a Required error and answers 422 (api.py:143-145, 269, 338-339). `Api.EmptyMethodReply` proves the 422.

## Model

| member | source | states |
|---|---|---|
| Fields.ValidateDate | api.py:171-180 | raises TypeError exactly for a non-str value; accepts exactly the strings that parse as `%d.%m.%Y` and, for a birthday, whose year is less than 70 years before the current one |
| Fields.ParseDate | api.py:173-176 | a parsed date is a real calendar date (day within its month, leap years included) |
| Fields.IsValid | api.py:183-232 | the validators of the date kinds are the only ones that raise, only on a non-str value, and what they raise is TypeError |
| Fields.PhoneIntRange | api.py:198-205 | an int phone is valid exactly when it lies in [70000000000, 80000000000) |
| Fields.PhoneStrAndBool | api.py:198-205 | a str phone is valid exactly when it has 11 characters and starts with '7'; a bool never is |
| Fields.PhoneExamples | tests/unit/test_unit.py:48-59 | '76543210000' and 76543210000 are valid; '12345670000' and 765432100001 are not |
| Fields.ClientIdsExamples | tests/unit/test_unit.py:101-108 | [1, 2] and [0] are valid; [], ['1', '2'], 1 and '1, 2, 3' are not |
| Fields.DateRoundTrip | api.py:171-180 | every calendar date written as dd.mm.yyyy parses back to itself |
| Fields.DateNeedsDots | api.py:173-176 | a text without '.' never parses |
| Fields.DateAccepted | tests/unit/test_unit.py:62-67 | '20.04.1970' parses to 20 April 1970 |
| Fields.ShortYearRejected | tests/unit/test_unit.py:62-67 | '20.04.88' does not parse (the year needs four digits) |
| Fields.OtherSeparatorsRejected | tests/unit/test_unit.py:62-67 | '20/04/1970', '20-04-1970' and '2005-08-09T18:31:42' do not parse |
| Fields.BirthdayAccepted | tests/unit/test_unit.py:75-82 | in 2022, the birthday '20.04.1953' is accepted |
| Fields.BirthdayTooOld | tests/unit/test_unit.py:75-82 | in 2022, the birthday '20.04.1952' is refused: 70 years is too old |
| FieldErrors.Grouped | api.py:63-69 | one group per error kind, in order of first appearance, holding that kind's fields |
| FieldErrors.GetMessage | api.py:62-71 | the grouping loop yields the message: the groups rendered as `<text> [fields]` and joined with ", " |
| FieldErrors.KindsDistinct | api.py:63-69 | no kind is grouped twice |
| FieldErrors.KindsOccur | api.py:63-69 | a kind has a group exactly when some error has that kind |
| FieldErrors.FieldsOfComplete | api.py:63-69 | every error's field is listed in its kind's group |
| FieldErrors.FieldsOfAbsent | api.py:63-69 | a kind with no error has no fields |
| FieldErrors.GroupedStep | api.py:64-69 | appending an error appends its field to its kind's group, or opens a new last group |
| FieldErrors.MissingClientIdsMessage | tests/integration/test_integration.py:62-65 | one Missing error on client_ids reads "Пропущены обязательные поля: ['client_ids']" |
| FieldErrors.TwoWrongTypesMessage | tests/integration/test_integration.py:146-155 | two FieldType errors on gender and phone read "Поля имеют не верный тип: ['gender', 'phone']" |
| FieldErrors.MessageNonEmpty | api.py:62-71 | the message of a non-empty error list is not empty |
| FieldErrors.SingleErrorMessage | api.py:62-71 | one error reads `<error text> ['<field>']` |
| FieldErrors.TwoErrorsOneKindMessage | api.py:62-71 | two errors of one kind share one line: `<error text> ['<first field>', '<second field>']`, in the order they were found |
| FieldErrors.EmptyClientIdsMessage | tests/integration/test_integration.py:50-53 | one Required error on client_ids reads "Следующие поля не должны быть пустыми: ['client_ids']" |
| Models.Verdict | api.py:136-149 | per field at most one error, in the code's order: Missing exactly for None on a required field; Required exactly for a falsy value on a non-nullable field that is not already Missing; FieldType exactly for a truthy value the validator refuses; it raises exactly when the validator raises on a truthy value, with the validator's exception; a falsy value on a nullable field is accepted without running the validator |
| Models.ValidateModel | api.py:129-156 | the loop over the field table yields the tally of the pure pass `Check` (values, fields_set, errors) |
| Models.CheckRaisedExtends | api.py:136-149 | an exception from a validator ends the whole pass with that exception |
| Models.InitModel | api.py:100-119 | the constructor yields `Validated`: field errors first, the root constraint only without them, values kept only when valid |
| Models.GetErrorMessage | api.py:62-76 | the message of a ValidationError is the grouped message; that of a ConstrainError is the fixed pair text |
| Models.ErrorsFollowSchema | api.py:121-124 | errors come in field-table order, one field at most once |
| Models.CheckComplete | api.py:136-153 | every field is checked whatever happened to the others: it has an error of kind K exactly when its verdict is K; otherwise its value is kept, and it is in fields_set exactly when that value is not None |
| Models.TallyWithinSchema | api.py:133-153 | values, fields_set and errors only ever name fields of the table |
| Models.CheckRaises | api.py:136-149 | the pass raises exactly when some field's validator raises |
| Models.ValidModel | api.py:100-119 | a valid model holds the input of every field (None when absent), fields_set is exactly the fields whose input is not None, and the root constraint holds |
| Models.ConstraintAfterFields | api.py:112-114 | a ConstrainError means every field passed and the root constraint failed |
| Models.Construct | api.py:101 | definition of the call `cls(**data)`: TypeError on a "self" key, otherwise `__init__` on data; what follows from it is stated by Requests.MethodRequestRaisesOnSelf, Api.SelfKeyReply and Api.SelfArgumentReply |
| Models.ModelErrorMessage | api.py:107-114 | the error of a constructed model always has a non-empty message, since a ValidationError holds at least one field error |
| Models.AllAccepted | api.py:136-155 | when every field passes, the pass returns without errors |
| Requests.ValidateOnLineScoreFields | api.py:243-247 | true exactly when first and last name, birthday and gender, or email and phone are all in fields_set |
| Requests.SchemasSorted | api.py:121-124 | the three field tables are in the name order reflection yields |
| Requests.PairExamples | tests/integration/test_integration.py:132-145 | {phone, gender} is not a pair; {birthday, gender} is |
| Requests.OnlineScorePairRule | api.py:243-258 | with each argument acceptable, OnlineScoreRequest is valid exactly when both fields of some pair are present (an empty str counts), and fails with ConstrainError otherwise |
| Requests.ValidClientIds | api.py:223-237 | a valid ClientsInterestsRequest holds a non-empty list of ints under client_ids |
| Requests.MethodRequestRaisesOnSelf | api.py:337 | MethodRequest's own validation never raises, and `MethodRequest(**body)` raises exactly when the body has a "self" key |
| Requests.EmptyMethodIsRequiredError | api.py:143-145 | an empty method is refused with a Required error on method |
| Requests.NoClientIdsExample | tests/integration/test_integration.py:62-65 | empty clients_interests arguments fail with exactly one Missing error, on client_ids |
| Requests.ClientsInterestsErrors | api.py:136-156 | ClientsInterestsRequest's errors are client_ids' error followed by date's |
| Requests.ClientIdsVerdict | api.py:223-236 | client_ids: Missing for None, Required for a falsy value, otherwise FieldType unless it is a list of ints |
| Requests.DateFieldRejectsDashes | api.py:208-210 | the optional date field refuses "20-04-1970" as a wrong type |
| Requests.DateFieldAccepts | api.py:208-210 | the optional date field accepts "20.04.1970" |
| Requests.EmptyClientIdsExample | tests/integration/test_integration.py:50-53 | client_ids [] beside a valid date fails with exactly one Required error on client_ids |
| Requests.StringClientIdsExample | tests/integration/test_integration.py:54-57 | client_ids ['1', '2'] fails with exactly one FieldType error on client_ids |
| Requests.DashedDateExample | tests/integration/test_integration.py:58-61 | date "20-04-1970" beside valid ids fails with exactly one FieldType error on date |
| Api.GetError | api.py:322-325 | the reply has the given code and the message when it is not empty, otherwise the code's default text |
| Api.ExpectedDigest | api.py:279-283 | the admin's digest is sha512 of the hour and ADMIN_SALT; anyone else's is sha512 of account + login + SALT when both are str, and it raises TypeError exactly when one of them is not |
| Api.CheckAuth | api.py:279-286 | accepts exactly when the token is the str of the expected digest; raises exactly when the digest cannot be formed |
| Api.Context.Update | api.py:289-291 | the context gains the method's entries and keeps the rest |
| Api.ArgumentsOf | api.py:299 | definition of the `arguments or {}` step (a dict is used as is, anything else gives an empty dict); its consequences are stated by Api.InvalidArgumentsReply and Api.ScoreArgumentsGiven |
| Api.ScoreArguments | api.py:309-311 | for a valid request get_score receives the set fields, each with its validated value; for an invalid one no arguments |
| Api.GetArgumentsAndError | api.py:294-302 | calls the argument class the method names with the argument dict: TypeError for a "self" key, otherwise that class's validation |
| Api.OnlineScore | api.py:305-312 | yields `OnlineScoreSpec`: context "has", score 42 for the admin, otherwise get_score's result or its exception, and the arguments' error |
| Api.ClientsInterests | api.py:315-319 | yields `ClientsInterestsSpec`: context "nclients", then the interests of the ids; nothing is fetched for invalid arguments |
| Api.FetchInterests | api.py:318 | the comprehension's loop (get_interests for each id in order, stopping at the first exception) yields `Interests` |
| Api.MethodHandler | api.py:328-348 | yields `Handle`'s reply and context entries |
| Api.Handle | api.py:328-348 | statuses are only 200, 400, 403 and 422; a 200 and any context entry both require an authenticated request |
| Api.Finish | api.py:343-348 | a KeyError from the method becomes 400 "Bad Request", any other exception passes through unchanged, an answer without error goes out as is with 200, one with an error goes out with 422 and the error's message (the default text if that were empty); the method's context entries are kept |
| Api.Dispatch | api.py:343-348 | after authentication the only statuses are 200, 400 and 422 |
| Api.HandleAuthorized | api.py:337-344 | an authenticated request is answered by the named method alone |
| Api.TokenKept | api.py:279-286 | the token check_auth compares is the one the body gave |
| Api.InterestsRaisedExtends | api.py:318 | once a lookup raised, the comprehension raises that exception |
| Api.InterestsReturned | api.py:318 | the comprehension returns exactly when every lookup returns |
| Api.InterestsKeys | api.py:318 | the result's keys are exactly the ids' JSON keys |
| Api.InterestsValues | api.py:318 | each id's key holds that id's interests, duplicated ids included |
| Api.InterestsRaisedFirst | api.py:318 | the exception raised is that of the first lookup that raised |
| Api.EmptyBodyReply | api.py:333-335 | a missing or falsy body gets 422 "Invalid Request" and no context |
| Api.WrongTokenReply | api.py:340-341 | a valid envelope with a wrong token gets 403 "Forbidden" and no context |
| Api.FailsClosed | api.py:279-286 | with 128-character digests, a token that is not a 128-character str never authenticates, so no 200 and no context |
| Api.EmptyMethodReply | api.py:337-339 | a body without a "self" key whose method is "" gets 422 and no context |
| Api.UnknownMethodReply | api.py:343-346 | an authenticated request for an unknown method gets 400 "Bad Request" and no context |
| Api.AdminScoreReply | api.py:309-312 | for the admin with valid arguments the reply is {"score": 42} with 200, whatever get_score would say, and the context has fields_set |
| Api.NoPairReply | api.py:305-312 | acceptable arguments without a complete pair get 422 with the ConstrainError text and "has" is the member table, provided a non-admin's argument-less get_score call returns |
| Api.ValidInterestsAnswer | api.py:315-319 | for valid arguments, nclients is the number of ids and the answer is the interests dict, or the lookup's exception |
| Api.InterestsReply | api.py:315-319 | when all lookups succeed, the reply is 200 with a dict from each id's key to its interests, and nclients counts the ids |
| Api.InterestsKeyErrorReply | api.py:343-346 | a KeyError out of the lookups is answered 400 and keeps nclients |
| Api.InterestsStep | api.py:318 | one more id extends a returned comprehension by that id's lookup |
| Api.SelfKeyReply | api.py:337 | a body with a "self" key raises TypeError, with no context |
| Api.SelfArgumentReply | api.py:294-317 | an authenticated request whose arguments have a "self" key raises TypeError before the context is updated |
| Api.InvalidEnvelopeReply | api.py:337-339 | a non-empty body whose MethodRequest is invalid gets 422 with that error's message and no context |
| Api.InvalidArgumentsReply | api.py:305-348 | invalid arguments of a known method get 422 with their error's message; the context gets "has" = member table or nclients 0 |
| Api.EmptyClientIdsReply | tests/integration/test_integration.py:50-53 | the suite's empty client_ids case gets 422 with "Следующие поля не должны быть пустыми: ['client_ids']" and nclients 0 |
| Api.ScoreArgumentsGiven | api.py:309-311 | get_score receives exactly the arguments given with a value other than None, with those values |
| Api.ScoreReply | api.py:305-312 | a non-admin's valid online_score request gets 200 with {"score": get_score's result} and "has" = fields_set |
| Api.ScoreFailureReply | api.py:309-346 | an exception from get_score is answered 400 when it is a KeyError and otherwise propagates; "has" is already recorded |
| Store.Trying | store.py:43-64 | the wrapped call is tried until an attempt does not raise the configured error, at most MAX_RETRIES + 1 times; the result is that attempt's; the sleeps are 2, 4, ... seconds, one per retry |
| Store.RetriesExactly | store.py:50-58 | k retries exactly when the first k attempts raised the configured error and, below the cap, attempt k did not |
| Store.SucceedsAfterFailures | store.py:49-54 | k <= 3 failures and then another outcome means exactly k retries and that the result is attempt k's outcome; with Store.Trying's ensures this is k + 1 calls and the sleeps 2, 4, … 2k |
| Store.AllAttemptsFail | store.py:50-62 | when every attempt fails, the sleeps are [2, 4, 6] and the error is raised again after the fourth call |
| Store.OtherExceptionPropagates | store.py:53-55 | another exception propagates from the first call, with no retry and no sleep |
| Store.BackoffsIncrease | store.py:59-62 | the sleep before retry n is 2n seconds, strictly increasing |
| Store.Lookup | store.py:73-76 | cache_get reads the stored value when it is truthy and None otherwise |
| Store.RedisStore.CacheSet | store.py:69-71 | under the retry policy, the value is stored once an attempt gets through, and nothing changes otherwise |
| Store.RedisStore.CacheGet | store.py:73-76 | under the retry policy, the result is the truthy stored value or None |
| Store.RedisStore.Get | store.py:78-81 | no retries of its own; the value when cache_get gives a truthy one, StoreKeyNotFound when it gives None, and cache_get's exception otherwise |
| Store.CacheGetMissWithoutRetry | store.py:73-76 | with a reachable server, a key without a truthy value gives None on the first attempt |
| MockStores.MockStore.constructor | tests/conftest.py:23-24 | the store starts with i:1, i:2 and i:3, each holding the same JSON document |
| MockStores.MockStore.CacheSet | tests/conftest.py:12-13 | only the key's entry changes, and the ttl is ignored |
| MockStores.MockStore.CacheGet | tests/conftest.py:15-16 | the stored value, or None for an absent key, without raising |
| MockStores.MockStore.Get | tests/conftest.py:18-21 | the stored value when it is truthy, StoreKeyNotFound otherwise |
| MockStores.Fetched | tests/conftest.py:18-21 | returns exactly for a truthy value, and then that value; raises StoreKeyNotFound otherwise |
| MockStores.SetThenGet | tests/conftest.py:12-16 | after cache_set(k, d, ttl), cache_get(k) gives d and every other key keeps its value |
| MockStores.InitialKeys | tests/conftest.py:23-24 | the initial keys are exactly i:1, i:2 and i:3, and get finds the document under each |

## Left out

- HTTP transport is not modelled. This covers `MainHTTPHandler.do_POST`, the request id, JSON decoding, routing to 404, the 500 for unexpected exceptions, the response envelope and logging (api.py:351-397), and the command line (api.py:400-413). An exception that `Handle` lets through is where do_POST would answer 500.
- `hashlib.sha512`, `datetime.now()`, `scoring.get_score` and `scoring.get_interests` are parameters (`Api.Env`), not definitions. The `scoring` module is not part of this model, so which keys get_interests reads from the store is not modelled either.
- `Fields.ParseDate`: `strptime` is modelled as three parts split on '.':
  - `%d` accepts 01-31, 1-9 and a space followed by 1-9;
  - `%m` accepts 01-12 and 1-9;
  - `%Y` accepts exactly four ASCII digits, with year 1 to 9999.
  Non-ASCII digits and other strptime leniencies are not modelled.
- Python floats are not modelled, and JSON numbers are ints.
- `Store.RedisStore.CacheGet`: `float(value.decode())` in cache_get is not modelled. The stored value is returned as is. So a stored "0" is not turned into a falsy 0.0 that `get` would then report as StoreKeyNotFound.
- `Store.RedisStore.CacheSet`: the ttl expiry is not modelled.
- Connection setup and timeouts (store.py:83-84) are not modelled. The Redis client is reduced to its contents and its per-attempt failures.
- `Store.Trying`: the sleeps are recorded, not slept. An attempt's outcome is a function of its number, so a call whose retries see changing server state is described by that function.
- Reflection members other than fields are not modelled. `inspect.getmembers` also lists `error`, `is_admin` and the like. The field tables keep only the fields, in the same order.
- `Api.OnlineScore`: on invalid arguments, ctx["has"] becomes the class's reflected member list. The model records that only as `MemberTable`.
- `Api.Interests`: JSON writes an int key as its decimal text, which the model keeps. A bool id would be written "true"/"false"; the model writes it as "1"/"0". A bool id also reaches `get_interests` as 1 or 0, where Python passes `True` or `False`.
- `Store.Trying`: the `logger.error` line written before each retry (store.py:61) is not modelled.
- `Models.ConstrainMessage`: Python prints each pair as a set in string-hash order. The model uses the fixed order the test suite expects.
- The pytest fixtures, the server thread and the patching of `check_auth` (tests/conftest.py:27-44) are test scaffolding and are not modelled.
