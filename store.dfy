/** store.py: the retry decorator with its backoff, and RedisStore with the Redis
    client reduced to the contents it holds and the failures it reports.  A
    wrapped call is described by what each of its attempts ends with, and the
    sleeps are recorded instead of slept. */
module Store {
  import opened Outcomes
  import opened Json

  const MaxRetries: nat := 3

  /** StoreKeyNotFound.get_message. */
  const KeyNotFoundMessage: string := "Данные по клиентам не найдены"

  // ---- trying_factory ----

  /** The attempt ended with the exception the decorator retries on. */
  predicate RaisedWith<T>(o: Outcome<T>, error: Exc)
  {
    o.Raised? && o.exc == error
  }

  /** The sleeps before the first k retries: 2, 4, ..., 2k seconds. */
  function Backoffs(k: nat): (b: seq<nat>)
    ensures |b| == k
  {
    if k == 0 then [] else Backoffs(k - 1) + [2 * k]
  }

  /** The number of retries from attempt n on: attempts that raised `error`, in a row,
      up to MAX_RETRIES of them. */
  function RetriesFrom<T>(error: Exc, attempt: nat -> Outcome<T>, n: nat): (k: nat)
    requires n <= MaxRetries
    ensures n <= k <= MaxRetries
    decreases MaxRetries - n
  {
    if n < MaxRetries && RaisedWith(attempt(n), error) then RetriesFrom(error, attempt, n + 1) else n
  }

  /** The number of retries a wrapped call makes when its n-th attempt ends as attempt(n). */
  function Retries<T>(error: Exc, attempt: nat -> Outcome<T>): nat
  {
    RetriesFrom(error, attempt, 0)
  }

  /** wrap: call until an attempt does not raise `error`, sleeping 2 * count seconds before
      retry number count, and re-raise once the error came MAX_RETRIES + 1 times. The result
      is that of the attempt after the retries, and there is one call more than retries. */
  method Trying<T>(error: Exc, attempt: nat -> Outcome<T>) returns (r: Outcome<T>, sleeps: seq<nat>, calls: nat)
    ensures |sleeps| == Retries(error, attempt)
    ensures sleeps == Backoffs(|sleeps|)
    ensures r == attempt(|sleeps|)
    ensures calls == |sleeps| + 1
  {
    var count: nat := 0;
    sleeps := [];
    calls := 0;
    while true
      invariant count <= MaxRetries
      invariant sleeps == Backoffs(count) && calls == count
      invariant forall j :: 0 <= j < count ==> RaisedWith(attempt(j), error)
      decreases MaxRetries - count
    {
      r := attempt(count);
      calls := calls + 1;
      if !RaisedWith(r, error) {
        RetriesExactly(error, attempt, count);
        return;
      }
      count := count + 1;
      if count > MaxRetries {
        RetriesExactly(error, attempt, MaxRetries);
        return;
      }
      var backoff := count * 2;
      sleeps := sleeps + [backoff];
    }
  }

  /** The number of retries is k exactly when the first k attempts raised the retried
      error and, unless the cap is reached, attempt k did not. */
  lemma RetriesExactly<T>(error: Exc, attempt: nat -> Outcome<T>, k: nat)
    ensures Retries(error, attempt) == k <==>
              && k <= MaxRetries
              && (forall j :: 0 <= j < k ==> RaisedWith(attempt(j), error))
              && (k < MaxRetries ==> !RaisedWith(attempt(k), error))
  {
    RetriesFromExactly(error, attempt, 0, k);
  }

  lemma {:induction false} RetriesFromExactly<T>(error: Exc, attempt: nat -> Outcome<T>, n: nat, k: nat)
    requires n <= MaxRetries
    ensures RetriesFrom(error, attempt, n) == k <==>
              && n <= k <= MaxRetries
              && (forall j :: n <= j < k ==> RaisedWith(attempt(j), error))
              && (k < MaxRetries ==> !RaisedWith(attempt(k), error))
    decreases MaxRetries - n
  {
    if n < MaxRetries && RaisedWith(attempt(n), error) {
      RetriesFromExactly(error, attempt, n + 1, k);
    }
  }

  /** After k <= MAX_RETRIES failures and then a different outcome, the call is made
      exactly k + 1 times and gives that outcome. */
  lemma SucceedsAfterFailures<T>(error: Exc, attempt: nat -> Outcome<T>, k: nat)
    requires k <= MaxRetries
    requires forall j :: 0 <= j < k ==> RaisedWith(attempt(j), error)
    requires !RaisedWith(attempt(k), error)
    ensures Retries(error, attempt) == k
    ensures attempt(Retries(error, attempt)) == attempt(k)
  {
    RetriesExactly(error, attempt, k);
  }

  /** When every attempt raises the retried error, the call is made MAX_RETRIES + 1 times,
      the sleeps are 2, 4 and 6 seconds and the error is re-raised. */
  lemma AllAttemptsFail<T>(error: Exc, attempt: nat -> Outcome<T>)
    requires forall j :: 0 <= j <= MaxRetries ==> RaisedWith(attempt(j), error)
    ensures Retries(error, attempt) == MaxRetries
    ensures Backoffs(Retries(error, attempt)) == [2, 4, 6]
    ensures attempt(Retries(error, attempt)) == Raised(error)
  {
    RetriesExactly(error, attempt, MaxRetries);
    assert Backoffs(1) == [2];
    assert Backoffs(2) == [2, 4];
  }

  /** Any other exception from the first attempt propagates at once: no retry, no sleep. */
  lemma OtherExceptionPropagates<T>(error: Exc, attempt: nat -> Outcome<T>)
    requires attempt(0).Raised? && attempt(0).exc != error
    ensures Retries(error, attempt) == 0
    ensures Backoffs(Retries(error, attempt)) == []
  {
    RetriesExactly(error, attempt, 0);
  }

  /** The i-th sleep is 2(i + 1) seconds, so the sleeps strictly increase. */
  lemma {:induction false} BackoffsIncrease(k: nat)
    ensures forall i :: 0 <= i < k ==> Backoffs(k)[i] == 2 * (i + 1)
    ensures forall i, j :: 0 <= i < j < k ==> Backoffs(k)[i] < Backoffs(k)[j]
  {
    if k > 0 {
      BackoffsIncrease(k - 1);
      assert forall i :: 0 <= i < k - 1 ==> Backoffs(k)[i] == Backoffs(k - 1)[i];
    }
  }

  // ---- RedisStore ----

  /** A command sent through the Redis client: on its n-th attempt it fails as failures(n)
      says, and otherwise yields v. */
  function ClientCall<T>(failures: nat -> Option<Exc>, v: T): nat -> Outcome<T>
  {
    (n: nat) => if failures(n).Some? then Raised(failures(n).value) else Returned(v)
  }

  /** What cache_get reads: the stored value when it is truthy, None otherwise. */
  function Lookup(contents: map<string, Value>, key: string): (v: Value)
    ensures Truthy(v) ==> key in contents && v == contents[key]
    ensures !Truthy(v) ==> v == Null && !(key in contents && Truthy(contents[key]))
  {
    if key in contents && Truthy(contents[key]) then contents[key] else Null
  }

  class RedisStore {
    /** The database behind the client. */
    var remote: map<string, Value>

    constructor (contents: map<string, Value>)
      ensures remote == contents
    {
      remote := contents;
    }

    /** cache_set under the retry policy: the value is stored once an attempt gets through. */
    method CacheSet(key: string, data: Value, ttl: int, failures: nat -> Option<Exc>)
      returns (r: Outcome<()>, sleeps: seq<nat>)
      modifies this
      ensures sleeps == Backoffs(Retries(RedisError, ClientCall(failures, ())))
      ensures r == ClientCall(failures, ())(|sleeps|)
      ensures remote == if r.Returned? then old(remote)[key := data] else old(remote)
    {
      var calls;
      r, sleeps, calls := Trying(RedisError, ClientCall(failures, ()));
      if r.Returned? {
        remote := remote[key := data];
      }
    }

    /** cache_get under the retry policy: the truthy stored value, or None. */
    method CacheGet(key: string, failures: nat -> Option<Exc>) returns (r: Outcome<Value>, sleeps: seq<nat>)
      ensures sleeps == Backoffs(Retries(RedisError, ClientCall(failures, Lookup(remote, key))))
      ensures r == ClientCall(failures, Lookup(remote, key))(|sleeps|)
    {
      var contents := remote;
      var calls;
      r, sleeps, calls := Trying(RedisError, ClientCall(failures, Lookup(contents, key)));
    }

    /** get: cache_get, then StoreKeyNotFound at once for a falsy result; no retry of its own. */
    method Get(key: string, failures: nat -> Option<Exc>) returns (r: Outcome<Value>, sleeps: seq<nat>)
      ensures sleeps == Backoffs(Retries(RedisError, ClientCall(failures, Lookup(remote, key))))
      ensures ClientCall(failures, Lookup(remote, key))(|sleeps|).Raised? ==>
                r == ClientCall(failures, Lookup(remote, key))(|sleeps|)
      ensures ClientCall(failures, Lookup(remote, key))(|sleeps|).Returned? ==>
                r == if Truthy(Lookup(remote, key)) then Returned(Lookup(remote, key)) else Raised(StoreKeyNotFound)
    {
      var value;
      value, sleeps := CacheGet(key, failures);
      if value.Raised? {
        return value, sleeps;
      }
      if Truthy(value.value) {
        return value, sleeps;
      }
      r := Raised(StoreKeyNotFound);
    }
  }

  /** With a reachable server, cache_get of a key without a truthy value returns None
      on the first attempt. */
  lemma CacheGetMissWithoutRetry(contents: map<string, Value>, key: string, failures: nat -> Option<Exc>)
    requires failures(0).None?
    requires !(key in contents && Truthy(contents[key]))
    ensures Retries(RedisError, ClientCall(failures, Lookup(contents, key))) == 0
    ensures ClientCall(failures, Lookup(contents, key))(0) == Returned(Null)
  {
    RetriesExactly(RedisError, ClientCall(failures, Lookup(contents, key)), 0);
  }
}
