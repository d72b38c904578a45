/** `insertRowsWithRetry` and `isRetryableBigQueryError` of internal/etl/worker_pool.go. */
module LoadRetry {
  import opened Options
  import opened ChunkLog
  import opened ChunkBatches

  const BIGQUERY_LOAD_MAX_ATTEMPTS: nat := 3
  /** One second, in nanoseconds. */
  const BIGQUERY_LOAD_INITIAL_DELAY: nat := 1_000_000_000

  datatype LoadError = Canceled | DeadlineExceeded | Api(code: int) | Other

  /** None is Go's nil error. */
  predicate IsRetryable(err: Option<LoadError>) {
    err.Some? && err.value.Api? && err.value.code in {500, 502, 503, 504}
  }

  /**
   * What one attempt meets: whether the context is done at its start, the reply to
   * the load job, whether the job landed (whatever the reply said), and whether the
   * wait after it is interrupted.
   */
  datatype Answer = Answer(done: bool, err: Option<LoadError>, landed: bool, interrupted: bool)

  /** A load job that reports success has landed. */
  predicate Truthful(answers: seq<Answer>) {
    forall k :: 0 <= k < |answers| && answers[k].err.None? ==> answers[k].landed
  }

  /** The loop goes on to the next attempt. */
  predicate Continues(a: Answer) {
    !a.done && IsRetryable(a.err) && !a.interrupted
  }

  function Pow2(n: nat): nat {
    if n == 0 then 1 else 2 * Pow2(n - 1)
  }

  function Sum(waits: seq<nat>): nat {
    if waits == [] then 0 else Sum(waits[..|waits| - 1]) + waits[|waits| - 1]
  }

  /** The copies of a batch that the first `calls` load jobs append. */
  function Landings(b: Batch, answers: seq<Answer>, calls: nat): seq<Batch>
    requires calls <= |answers|
  {
    if calls == 0 then []
    else Landings(b, answers, calls - 1) + (if answers[calls - 1].landed then [b] else [])
  }

  /** Success is the reply of attempt n, after n retryable failures. */
  predicate SucceedsAt(answers: seq<Answer>, n: nat)
    requires n < |answers|
  {
    && (forall k :: 0 <= k < n ==> Continues(answers[k]))
    && !answers[n].done && answers[n].err.None?
  }

  /**
   * Any maximum of at least one attempt; the code uses three. Only the last load job
   * can have succeeded or failed for good, the waits double, a nil result means that
   * attempt `calls` succeeded, and only a done context, a final error or an interrupted
   * wait ends the loop early. ctxErr is the error of a context that is done.
   */
  method InsertRowsWithRetry(b: Batch, maxAttempts: nat, initialDelay: nat, answers: seq<Answer>, ctxErr: LoadError)
      returns (result: Option<LoadError>, calls: nat, waits: seq<nat>, appended: seq<Batch>)
    requires maxAttempts >= 1 && |answers| >= maxAttempts && Truthful(answers)
    ensures calls <= maxAttempts
    ensures forall k :: 0 <= k < calls - 1 ==> Continues(answers[k])
    ensures result.None? ==> calls >= 1 && SucceedsAt(answers, calls - 1) && b in appended
    ensures result.None? <==> exists n :: 0 <= n < maxAttempts && SucceedsAt(answers, n)
    ensures result.Some? && calls > 0 && !IsRetryable(answers[calls - 1].err)
            ==> result == answers[calls - 1].err
    ensures result.Some? && (calls == 0 || IsRetryable(answers[calls - 1].err))
            ==> if calls < maxAttempts then result == Some(ctxErr) else result == answers[calls - 1].err
    ensures appended == Landings(b, answers, calls)
    ensures result.Some? && calls < maxAttempts
            ==> answers[calls].done || (calls > 0 && !Continues(answers[calls - 1]))
    ensures var last := calls > 0 && (calls == maxAttempts || !IsRetryable(answers[calls - 1].err));
            |waits| == if last then calls - 1 else calls
    ensures |waits| <= maxAttempts - 1
    ensures forall k :: 0 <= k < |waits| ==> waits[k] == initialDelay * Pow2(k)
  {
    calls, waits, appended := 0, [], [];
    var lastErr: Option<LoadError> := None;
    var attempt := 1;
    while attempt <= maxAttempts
      invariant 1 <= attempt <= maxAttempts
      invariant calls == |waits| == attempt - 1
      invariant appended == Landings(b, answers, calls)
      invariant forall k :: 0 <= k < calls ==> Continues(answers[k])
      invariant forall k :: 0 <= k < |waits| ==> waits[k] == initialDelay * Pow2(k)
      decreases maxAttempts - attempt
    {
      var answer := answers[attempt - 1];
      if answer.done {
        NoLaterSuccess(answers, calls);
        return Some(ctxErr), calls, waits, appended;
      }
      lastErr := answer.err;
      calls := calls + 1;
      appended := appended + (if answer.landed then [b] else []);
      if lastErr.None? {
        assert SucceedsAt(answers, calls - 1);
        return None, calls, waits, appended;
      }
      NoLaterSuccess(answers, calls - 1);
      if !IsRetryable(lastErr) {
        return lastErr, calls, waits, appended;
      }
      if attempt == maxAttempts {
        break;
      }
      var delay := initialDelay * Pow2(attempt - 1);
      waits := waits + [delay];
      if answer.interrupted {
        return Some(ctxErr), calls, waits, appended;
      }
      attempt := attempt + 1;
    }
    return lastErr, calls, waits, appended;
  }

  /** The server errors that are worth a retry, and no other error. */
  lemma RetryableCodes(code: int)
    ensures IsRetryable(Some(Api(code))) <==> code == 500 || code == 502 || code == 503 || code == 504
    ensures !IsRetryable(None) && !IsRetryable(Some(Canceled)) && !IsRetryable(Some(DeadlineExceeded))
    ensures !IsRetryable(Some(Other))
  {
  }

  /** The context is not done and the wait, if any, not interrupted. */
  predicate Undisturbed(a: Answer) {
    !a.done && !a.interrupted
  }

  /**
   * The call the workers make: a missing table ends it at once, a passing outage is
   * waited out, and a lasting one ends it after three attempts, one and two seconds apart.
   */
  method InsertChunks(b: Batch, answers: seq<Answer>, ctxErr: LoadError)
      returns (result: Option<LoadError>, calls: nat, waits: seq<nat>, appended: seq<Batch>)
    requires |answers| >= 3 && Truthful(answers)
    ensures calls <= 3 && appended == Landings(b, answers, calls)
    ensures Undisturbed(answers[0]) && answers[0].err == Some(Api(404)) ==>
              result == Some(Api(404)) && calls == 1 && waits == []
    ensures Undisturbed(answers[0]) && answers[0].err == Some(Api(503))
            && !answers[1].done && answers[1].err == None ==>
              result == None && calls == 2 && waits == [1_000_000_000]
    ensures (forall k :: 0 <= k < 3 ==> Undisturbed(answers[k]) && answers[k].err == Some(Api(503))) ==>
              result == Some(Api(503)) && calls == 3 && waits == [1_000_000_000, 2_000_000_000]
  {
    result, calls, waits, appended :=
      InsertRowsWithRetry(b, BIGQUERY_LOAD_MAX_ATTEMPTS, BIGQUERY_LOAD_INITIAL_DELAY, answers, ctxErr);
    assert Pow2(0) == 1 && Pow2(1) == 2;
    if !answers[1].done && answers[1].err == None && Continues(answers[0]) {
      assert SucceedsAt(answers, 1);
    }
  }

  /** The first attempt that neither succeeds nor continues, or is the last one, settles the result. */
  lemma NoLaterSuccess(answers: seq<Answer>, n: nat)
    requires n < |answers| && (answers[n].done || answers[n].err.Some?)
    ensures forall m :: 0 <= m < |answers| && SucceedsAt(answers, m) ==> m < n || (m > n && Continues(answers[n]))
  {
  }

  /** Doubling waits, at most N - 1 of them, last at most 2^(N-1) - 1 initial delays in all. */
  lemma {:induction false} TotalWait(waits: seq<nat>, initialDelay: nat, maxAttempts: nat)
    requires |waits| < maxAttempts
    requires forall k :: 0 <= k < |waits| ==> waits[k] == initialDelay * Pow2(k)
    ensures Sum(waits) == initialDelay * (Pow2(|waits|) - 1) <= initialDelay * (Pow2(maxAttempts - 1) - 1)
  {
    if waits != [] {
      var n := |waits| - 1;
      TotalWait(waits[..n], initialDelay, maxAttempts);
      DoublingStep(initialDelay, n);
    }
    DoublingGrows(initialDelay, |waits|, maxAttempts - 1);
  }

  /** With the code's constants the waits last at most three seconds. */
  lemma ProductionWait(waits: seq<nat>)
    requires |waits| < BIGQUERY_LOAD_MAX_ATTEMPTS
    requires forall k :: 0 <= k < |waits| ==> waits[k] == BIGQUERY_LOAD_INITIAL_DELAY * Pow2(k)
    ensures Sum(waits) <= 3_000_000_000
  {
    TotalWait(waits, BIGQUERY_LOAD_INITIAL_DELAY, BIGQUERY_LOAD_MAX_ATTEMPTS);
    assert Pow2(2) == 4;
  }

  lemma DoublingStep(delay: nat, k: nat)
    ensures delay * (Pow2(k) - 1) + delay * Pow2(k) == delay * (Pow2(k + 1) - 1)
  {
    assert delay * Pow2(k + 1) == delay * Pow2(k) + delay * Pow2(k);
    assert delay * (Pow2(k) - 1) == delay * Pow2(k) - delay;
    assert delay * (Pow2(k + 1) - 1) == delay * Pow2(k + 1) - delay;
  }

  lemma {:induction false} DoublingGrows(delay: nat, k: nat, n: nat)
    requires k <= n
    ensures delay * (Pow2(k) - 1) <= delay * (Pow2(n) - 1)
    decreases n
  {
    if k < n {
      DoublingGrows(delay, k, n - 1);
      DoublingStep(delay, n - 1);
    }
  }

  /** What a call leaves in the log: the batch a number of times. */
  lemma {:induction false} LandingsRepeat(b: Batch, answers: seq<Answer>, calls: nat) returns (n: nat)
    requires calls <= |answers|
    ensures Landings(b, answers, calls) == Repeat(b, n) && n <= calls
  {
    if calls == 0 {
      n := 0;
    } else {
      n := LandingsRepeat(b, answers, calls - 1);
      if answers[calls - 1].landed {
        assert Repeat(b, n) + [b] == Repeat(b, n + 1);
        n := n + 1;
      }
    }
  }

  /** However often the attempts landed, the view is that of one landing, or of none at all. */
  lemma RetryView(landed: seq<Batch>, b: Batch, answers: seq<Answer>, calls: nat, view: multiset<CurrentRow>)
    requires calls <= |answers|
    ensures var appended := Landings(b, answers, calls);
            IsReference(LoadsOf(landed + appended), view)
            <==> IsReference(LoadsOf(if appended == [] then landed else landed + [b]), view)
  {
    var n := LandingsRepeat(b, answers, calls);
    if n >= 1 {
      RepeatedLanding(landed, b, n, view);
    } else {
      assert landed + [] == landed;
    }
  }
}
