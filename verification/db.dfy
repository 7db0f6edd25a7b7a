/** The database helper: which errors count as transient, and the query
    wrapper that retries transient failures a bounded number of times and
    turns the final failure into one of a few fixed messages.

    The connection pool and the query itself are the parameter `run`: what
    attempt `k` (counted from 0) of the query yields. Waiting is recorded as
    the list of delays the wrapper asks for, not performed. */
module Db {
  import opened Common
  import opened Text

  /** The fields of a thrown error the helper reads. */
  datatype DbError = DbError(code: Option<string>, message: Option<string>)

  /** Postgres classes 08 (connection exception), 57 (operator intervention) and 53300. */
  const TransientPgCodes: set<string> :=
    {"08000", "08003", "08006", "08001", "08004", "08007", "08P01", "57P01", "57P02", "57P03", "53300"}

  /** Node-level network errors. */
  const NetworkCodes: set<string> := {"ECONNRESET", "ETIMEDOUT", "EPIPE", "ECONNREFUSED"}

  /** Lower-case fragments of messages that suggest a dropped connection. */
  const TransientWords: seq<string> := ["terminat", "timeout", "connection"]

  /** `isTransientError(error)`; `None` is a missing error. */
  predicate IsTransientError(error: Option<DbError>)
  {
    if error.None? then false
    else
      var code := error.value.code;
      var message := ToLower(OrElse(error.value.message, ""));
      if Present(code) && code.value in TransientPgCodes then true
      else if code.Some? && code.value in NetworkCodes then true
      else SuggestsDrop(message)
  }

  /** The lower-cased message holds one of the fragments. */
  predicate SuggestsDrop(message: string)
  {
    Contains(message, TransientWords[0]) || Contains(message, TransientWords[1]) || Contains(message, TransientWords[2])
  }

  /** A missing error is not transient; a listed code is, whatever the message. */
  lemma TransientByCode(error: Option<DbError>)
    ensures error.None? ==> !IsTransientError(error)
    ensures error.Some? && error.value.code.Some? && error.value.code.value in TransientPgCodes + NetworkCodes
            ==> IsTransientError(error)
  {
  }

  lemma {:induction false} ToLowerConcat(a: string, b: string)
    ensures ToLower(a + b) == ToLower(a) + ToLower(b)
  {
    var r := ToLower(a + b);
    var t := ToLower(a) + ToLower(b);
    assert |r| == |t|;
    forall i | 0 <= i < |r| ensures r[i] == t[i] {
      if i < |a| {
        assert (a + b)[i] == a[i];
      } else {
        assert (a + b)[i] == b[i - |a|];
      }
    }
  }

  /** The message test ignores case: a message holding one of the fragments,
      in any mix of upper and lower case, marks the error transient. */
  lemma TransientByMessage(code: Option<string>, before: string, word: string, after: string, k: nat)
    requires k < |TransientWords| && ToLower(word) == TransientWords[k]
    ensures IsTransientError(Some(DbError(code, Some(before + word + after))))
  {
    LoweredSuggestsDrop(before, word, after, k);
  }

  lemma LoweredSuggestsDrop(before: string, word: string, after: string, k: nat)
    requires k < |TransientWords| && ToLower(word) == TransientWords[k]
    ensures SuggestsDrop(ToLower(before + word + after))
  {
    ToLowerConcat(before + word, after);
    ToLowerConcat(before, word);
    ContainsMiddle(ToLower(before), ToLower(word), ToLower(after));
    assert Contains(ToLower(before + word + after), TransientWords[k]);
  }

  /** An error with no code whose message holds none of the fragments is final. */
  lemma NotTransient(message: string)
    requires forall k :: 0 <= k < |TransientWords| ==> !Contains(ToLower(message), TransientWords[k])
    ensures !IsTransientError(Some(DbError(None, Some(message))))
  {
    assert !Contains(ToLower(message), TransientWords[0]);
    assert !Contains(ToLower(message), TransientWords[1]);
    assert !Contains(ToLower(message), TransientWords[2]);
  }

  /** What one attempt yields. */
  datatype Outcome<T> = Rows(rows: T) | Failed(error: DbError)

  /** The error the wrapper throws once it gives up. */
  datatype QueryFailure = ConnectionRefused | HostNotFound | AuthenticationFailed | DatabaseMissing | QueryFailed

  function FailureOf(e: DbError): (f: QueryFailure)
    ensures f == ConnectionRefused <==> e.code == Some("ECONNREFUSED")
    ensures f == HostNotFound <==> e.code == Some("ENOTFOUND")
    ensures f == AuthenticationFailed <==> e.code == Some("28P01")
    ensures f == DatabaseMissing <==> e.code == Some("3D000")
  {
    if e.code == Some("ECONNREFUSED") then ConnectionRefused
    else if e.code == Some("ENOTFOUND") then HostNotFound
    else if e.code == Some("28P01") then AuthenticationFailed
    else if e.code == Some("3D000") then DatabaseMissing
    else QueryFailed
  }

  function FailureMessage(f: QueryFailure): string
  {
    match f
    case ConnectionRefused => "Database connection refused - check if database is running"
    case HostNotFound => "Database host not found - check database configuration"
    case AuthenticationFailed => "Database authentication failed - check credentials"
    case DatabaseMissing => "Database does not exist - check database name"
    case QueryFailed => "Database query failed"
  }

  /** `Math.max(0, opts?.retries ?? 1)`: one retry unless told otherwise. */
  function Retries(retries: Option<int>): (r: nat)
    ensures retries.None? ==> r == 1
    ensures retries.Some? ==> r == Max(0, retries.value)
  {
    if retries.Some? then Max(0, retries.value) else 1
  }

  /** `Math.max(0, opts?.backoffMs ?? 150)`. */
  function Backoff(backoffMs: Option<int>): (r: nat)
    ensures backoffMs.None? ==> r == 150
    ensures backoffMs.Some? ==> r == Max(0, backoffMs.value)
  {
    if backoffMs.Some? then Max(0, backoffMs.value) else 150
  }

  /** `query(text, params, opts)`. Every attempt but the last failed with a
      transient error and was followed by one wait of the back-off delay; the
      last attempt either returned rows or failed with an error that was not
      transient or came after all retries were spent. */
  method Query<T>(run: nat -> Outcome<T>, retries: Option<int>, backoffMs: Option<int>)
    returns (result: Result<T, QueryFailure>, attempts: nat, waits: seq<nat>)
    ensures 1 <= attempts <= Retries(retries) + 1
    ensures forall k :: 0 <= k < attempts - 1 ==> run(k).Failed? && IsTransientError(Some(run(k).error))
    ensures |waits| == attempts - 1 && forall k :: 0 <= k < |waits| ==> waits[k] == Backoff(backoffMs)
    ensures run(attempts - 1).Rows? ==> result == Ok(run(attempts - 1).rows)
    ensures run(attempts - 1).Failed? ==>
      && (attempts - 1 == Retries(retries) || !IsTransientError(Some(run(attempts - 1).error)))
      && result == Err(FailureOf(run(attempts - 1).error))
  {
    var limit := Retries(retries);
    var delay := Backoff(backoffMs);
    var attempt: nat := 0;
    waits := [];
    while true
      invariant attempt <= limit
      invariant forall k :: 0 <= k < attempt ==> run(k).Failed? && IsTransientError(Some(run(k).error))
      invariant |waits| == attempt && forall k :: 0 <= k < attempt ==> waits[k] == delay
      decreases limit - attempt
    {
      var outcome := run(attempt);
      if outcome.Rows? {
        return Ok(outcome.rows), attempt + 1, waits;
      }
      if attempt < limit && IsTransientError(Some(outcome.error)) {
        attempt := attempt + 1;
        waits := waits + [delay];
        continue;
      }
      return Err(FailureOf(outcome.error)), attempt + 1, waits;
    }
  }
}
