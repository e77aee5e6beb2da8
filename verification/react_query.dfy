/** The shared query client of lib/react-query.ts: when a failed query or
    mutation is tried again, and what a failed mutation does to the
    session. The retry loop is the query library's: after the `n`th
    failure (counting from 0) it asks `retry(n, error)` and runs again on
    `true`. */
module ReactQuery {
  import opened Wrappers
  import opened Text
  import AuthStore

  /** `error?.message?.includes("Unauthorized")`: an error without a
      message never counts. */
  predicate Unauthorized(message: Option<string>) {
    message.Some? && Includes(message.value, "Unauthorized")
  }

  datatype Kind = Query | Mutation

  /** Failures after which the defaults still try again: 3 for queries,
      2 for mutations. */
  function RetryLimit(kind: Kind): (r: nat)
    ensures r == 3 <==> kind == Query
    ensures r == 2 <==> kind == Mutation
  {
    match kind
    case Query => 3
    case Mutation => 2
  }

  /** The `retry` options: never after an Unauthorized error, otherwise
      while `failureCount` is below the limit. */
  function Retry(kind: Kind, failureCount: int, message: Option<string>): (r: bool)
    ensures Unauthorized(message) ==> !r
    ensures !Unauthorized(message) ==> (r <==> failureCount < RetryLimit(kind))
  {
    if Unauthorized(message) then false else failureCount < RetryLimit(kind)
  }

  /** Once the options stop retrying, they stop for every later count; a
      mutation is retried only where a query would be. */
  lemma RetryStopsForGood(kind: Kind, a: int, b: int, message: Option<string>)
    requires a <= b
    ensures Retry(kind, b, message) ==> Retry(kind, a, message)
    ensures Retry(Mutation, a, message) ==> Retry(Query, a, message)
  {
  }

  /** The server's answer to one attempt. */
  datatype Attempt = Succeeded | FailedWith(message: Option<string>)

  predicate Retryable(a: Attempt) {
    a.FailedWith? && !Unauthorized(a.message)
  }

  /** The attempts run for one request, where `answer(k)` is how attempt
      `k` (from 0) ends: it stops at the first success, at the first
      Unauthorized error, or once the limit's retries are spent. */
  method Run(kind: Kind, answer: nat -> Attempt) returns (attempts: nat, last: Attempt)
    ensures 1 <= attempts <= RetryLimit(kind) + 1
    ensures last == answer(attempts - 1)
    ensures forall k: nat :: k < attempts - 1 ==> Retryable(answer(k))
    ensures Retryable(last) ==> attempts == RetryLimit(kind) + 1
  {
    var failureCount: nat := 0;
    last := answer(0);
    while last.FailedWith? && Retry(kind, failureCount, last.message)
      invariant failureCount <= RetryLimit(kind)
      invariant last == answer(failureCount)
      invariant forall k: nat :: k < failureCount ==> Retryable(answer(k))
      decreases RetryLimit(kind) - failureCount
    {
      failureCount := failureCount + 1;
      last := answer(failureCount);
    }
    attempts := failureCount + 1;
  }

  /** An Unauthorized first answer is never tried again; a server that
      keeps failing otherwise sees 4 query attempts and 3 mutation
      attempts. */
  lemma AttemptCounts(kind: Kind, answer: nat -> Attempt)
    ensures answer(0).FailedWith? && Unauthorized(answer(0).message) ==> Attempts(kind, answer) == 1
    ensures (forall k: nat :: Retryable(answer(k))) ==>
      Attempts(kind, answer) == (if kind == Query then 4 else 3)
  {
    if forall k: nat :: Retryable(answer(k)) {
      AttemptsFrom(kind, answer, 0);
    }
  }

  /** The same count as a function: attempts from failure `n` on. */
  function AttemptsAfter(kind: Kind, answer: nat -> Attempt, n: nat): (r: nat)
    requires n <= RetryLimit(kind)
    ensures 1 <= r <= RetryLimit(kind) + 1 - n
    decreases RetryLimit(kind) - n
  {
    var a := answer(n);
    if a.FailedWith? && Retry(kind, n, a.message) then 1 + AttemptsAfter(kind, answer, n + 1) else 1
  }

  function Attempts(kind: Kind, answer: nat -> Attempt): (r: nat)
    ensures 1 <= r <= RetryLimit(kind) + 1
  {
    AttemptsAfter(kind, answer, 0)
  }

  lemma {:induction false} AttemptsFrom(kind: Kind, answer: nat -> Attempt, n: nat)
    requires n <= RetryLimit(kind)
    requires forall k: nat :: Retryable(answer(k))
    ensures AttemptsAfter(kind, answer, n) == RetryLimit(kind) + 1 - n
    decreases RetryLimit(kind) - n
  {
    if n < RetryLimit(kind) {
      AttemptsFrom(kind, answer, n + 1);
    }
  }

  /** The loop and the count agree on every server. */
  method RunCountsAttempts(kind: Kind, answer: nat -> Attempt) returns (attempts: nat)
    ensures attempts == Attempts(kind, answer)
  {
    var last;
    attempts, last := Run(kind, answer);
    RunMatches(kind, answer, 0, attempts);
  }

  lemma {:induction false} RunMatches(kind: Kind, answer: nat -> Attempt, n: nat, attempts: nat)
    requires n < attempts <= RetryLimit(kind) + 1
    requires forall k: nat :: k < attempts - 1 ==> Retryable(answer(k))
    requires Retryable(answer(attempts - 1)) ==> attempts == RetryLimit(kind) + 1
    ensures AttemptsAfter(kind, answer, n) == attempts - n
    decreases attempts - n
  {
    if n + 1 < attempts {
      RunMatches(kind, answer, n + 1, attempts);
    }
  }

  const SessionExpired := "Session expired. Please login again."

  /** The mutations' `onError`: an Unauthorized error signs the user out
      and raises the "Session expired" toast; any other error changes
      nothing. */
  function OnMutationError(s: AuthStore.Session, message: Option<string>): (r: (AuthStore.Session, Option<string>))
    ensures Unauthorized(message) ==> r.0.state == AuthStore.SignedOut && r.0.cookies.token.None?
    ensures Unauthorized(message) ==> r.1 == Some(SessionExpired)
    ensures !Unauthorized(message) ==> r == (s, None)
  {
    if Unauthorized(message) then (AuthStore.Logout(s), Some(SessionExpired)) else (s, None)
  }
}
