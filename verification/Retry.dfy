/**
 The retrying transaction wrapper, around any unit of work.
 */
module Retry {
  import opened Domain

  datatype ErrorLabel = TransientTransactionError | UnknownTransactionCommitResult | OtherLabel

  datatype TxError = TxError(labels: Option<set<ErrorLabel>>, fromMongo: bool, code: Option<int>)

  const WRITE_CONFLICT := 112
  const NO_SUCH_TRANSACTION := 251
  const MAX_RETRIES: nat := 3

  /** An error thrown by the services themselves carries no label and no code. */
  const BUSINESS_ERROR := TxError(None, false, None)

  predicate IsTransientError(err: TxError) {
    match err.labels
    case None => false
    case Some(labels) => TransientTransactionError in labels || UnknownTransactionCommitResult in labels
  }

  predicate ShouldRetry(err: TxError) {
    IsTransientError(err) || (err.fromMongo && err.code in {Some(WRITE_CONFLICT), Some(NO_SUCH_TRANSACTION)})
  }

  /** Tried again: an abort that the server calls transient, a commit of unknown outcome, a write conflict, and a transaction
      that the server has lost. */
  lemma RetriedErrors(err: TxError)
    ensures ShouldRetry(err) <==>
              (err.labels.Some? && TransientTransactionError in err.labels.value)
              || (err.labels.Some? && UnknownTransactionCommitResult in err.labels.value)
              || (err.fromMongo && (err.code == Some(112) || err.code == Some(251)))
  {
  }

  /** A unit of work goes from one state to the next, depending on its turn, and may fail. */
  datatype Ended<S> = Ended(state: S, failure: Option<TxError>)

  function StateAfter<S, T>(work: (S, T) -> Ended<S>, start: S, turns: seq<T>, n: nat): S
    requires n <= |turns|
  {
    if n == 0 then start else work(StateAfter(work, start, turns, n - 1), turns[n-1]).state
  }

  /** How attempt n ends, counted from one. */
  function FailureOf<S, T>(work: (S, T) -> Ended<S>, start: S, turns: seq<T>, n: nat): Option<TxError>
    requires 0 < n <= |turns|
  {
    work(StateAfter(work, start, turns, n - 1), turns[n-1]).failure
  }

  predicate Retried(failure: Option<TxError>) {
    failure.Some? && ShouldRetry(failure.value)
  }

  /** The wrapper makes n attempts: all but the last failed with an error to be retried, and the last did so only if no more
      were allowed. */
  ghost predicate Attempted<S, T>(work: (S, T) -> Ended<S>, start: S, turns: seq<T>, maxRetries: nat, n: nat) {
    0 < n <= maxRetries && maxRetries <= |turns|
    && (forall k | 0 < k < n :: Retried(FailureOf(work, start, turns, k)))
    && (Retried(FailureOf(work, start, turns, n)) ==> n == maxRetries)
  }

  /** What holds at the start and is kept by every attempt holds after any number of them. */
  lemma {:induction false} StateInvariant<S(!new), T(!new)>(work: (S, T) -> Ended<S>, start: S, turns: seq<T>, n: nat, inv: S -> bool)
    requires n <= |turns| && inv(start) && forall s, t :: inv(s) ==> inv(work(s, t).state)
    ensures inv(StateAfter(work, start, turns, n))
    decreases n
  {
    if n > 0 {
      StateInvariant(work, start, turns, n - 1, inv);
    }
  }

  /** What every attempt ensures when it starts from such a state, the last one has ensured. */
  lemma LastEnded<S(!new), T(!new)>(
      work: (S, T) -> Ended<S>, start: S, turns: seq<T>, n: nat, inv: S -> bool, post: Ended<S> -> bool)
    requires 0 < n <= |turns| && inv(start)
    requires forall s, t :: inv(s) ==> inv(work(s, t).state) && post(work(s, t))
    ensures post(Ended(StateAfter(work, start, turns, n), FailureOf(work, start, turns, n)))
  {
    StateInvariant(work, start, turns, n - 1, inv);
    var last := work(StateAfter(work, start, turns, n - 1), turns[n-1]);
    assert last == Ended(StateAfter(work, start, turns, n), FailureOf(work, start, turns, n));
  }

  predicate CountsAt<S, T>(work: (S, T) -> Ended<S>, start: S, turns: seq<T>, counts: (S, T) -> bool, k: nat)
    requires k < |turns|
  {
    counts(StateAfter(work, start, turns, k), turns[k])
  }

  lemma CounterStep<S(!new), T(!new)>(
      work: (S, T) -> Ended<S>, start: S, turns: seq<T>, n: nat, counter: S -> nat, counts: (S, T) -> bool)
    requires n < |turns|
    requires forall s, t {:trigger work(s, t)} :: counter(work(s, t).state) == counter(s) + if counts(s, t) then 1 else 0
    ensures counter(StateAfter(work, start, turns, n + 1))
         == counter(StateAfter(work, start, turns, n)) + if CountsAt(work, start, turns, counts, n) then 1 else 0
  {
  }

  /** A counter that goes up at certain attempts has gone up exactly if there was such an attempt. */
  lemma {:induction false} CounterMoved<S(!new), T(!new)>(
      work: (S, T) -> Ended<S>, start: S, turns: seq<T>, n: nat, counter: S -> nat, counts: (S, T) -> bool)
    requires n <= |turns|
    requires forall s, t {:trigger work(s, t)} :: counter(work(s, t).state) == counter(s) + if counts(s, t) then 1 else 0
    ensures counter(StateAfter(work, start, turns, n)) >= counter(start)
    ensures counter(StateAfter(work, start, turns, n)) > counter(start)
            <==> exists k | 0 <= k < n :: CountsAt(work, start, turns, counts, k)
    decreases n
  {
    if n > 0 {
      CounterMoved(work, start, turns, n - 1, counter, counts);
      CounterStep(work, start, turns, n - 1, counter, counts);
    }
  }

  /** Attempts with backoff, until one succeeds, fails for good, or is the last. */
  method WithRetryableTransaction<S, T>(work: (S, T) -> Ended<S>, start: S, turns: seq<T>, maxRetries: nat)
    returns (state: S, failure: Option<TxError>, attempt: nat)
    requires |turns| >= maxRetries
    ensures attempt <= maxRetries && state == StateAfter(work, start, turns, attempt)
    ensures maxRetries == 0 ==> attempt == 0 && failure.Some?
    ensures maxRetries > 0 ==>
              Attempted(work, start, turns, maxRetries, attempt) && failure == FailureOf(work, start, turns, attempt)
  {
    attempt, state := 0, start;
    var lastError := BUSINESS_ERROR;
    while attempt < maxRetries
      invariant attempt <= maxRetries && state == StateAfter(work, start, turns, attempt)
      invariant forall k | 0 < k <= attempt :: Retried(FailureOf(work, start, turns, k))
      invariant attempt > 0 ==> Some(lastError) == FailureOf(work, start, turns, attempt)
    {
      attempt := attempt + 1;
      var ended := work(state, turns[attempt-1]);
      state := ended.state;
      if ended.failure.None? {
        return state, None, attempt;
      }
      lastError := ended.failure.value;
      if !ShouldRetry(lastError) || attempt >= maxRetries {
        return state, Some(lastError), attempt;
      }
    }
    failure := Some(lastError);
  }
}
