/**
  Retrying a storage call on transient errors, against any script of outcomes.  A failure
  in the connection phase means that no byte of the request was sent; section 9.2.2 of RFC
  9110 allows an automatic retry of a non-idempotent request only then.
*/
module HttpRetry {
  import opened Common

  datatype Failure = ConnectTimeout | ConnectError | PoolTimeout | ReadTimeout | OtherFailure

  datatype Outcome = Response(status: int) | Raised(failure: Failure)

  const CONNECT_PHASE: set<Failure> := {ConnectTimeout, ConnectError, PoolTimeout}
  const CONNECT_PHASE_MAX_ATTEMPTS: int := 5

  datatype Policy = Policy(failures: set<Failure>, statuses: set<int>, maxAttempts: int, connectMax: Option<int>)

  const NON_IDEMPOTENT: Policy := Policy(CONNECT_PHASE, {}, CONNECT_PHASE_MAX_ATTEMPTS, None)

  const IDEMPOTENT: Policy :=
    Policy({ConnectTimeout, ReadTimeout, PoolTimeout, ConnectError}, {502, 503, 504}, 3, None)

  function Max(a: int, b: int): int { if a >= b then a else b }

  function ConnectBudget(p: Policy): int {
    if p.connectMax.Some? then p.connectMax.value else p.maxAttempts
  }

  function EffectiveMax(p: Policy): int {
    Max(p.maxAttempts, ConnectBudget(p))
  }

  /** The outcomes of the calls, numbered from 1, and the jitter of the pauses after them. */
  type Script = int -> Outcome
  type Jitter = int -> real

  /** The request reached the server, or may have. */
  predicate Sent(o: Outcome) {
    o.Raised? ==> o.failure !in CONNECT_PHASE
  }

  /** The policy goes on after this outcome of this attempt. */
  predicate Retries(p: Policy, o: Outcome, attempt: int) {
    match o
    case Raised(f) =>
      f in p.failures && attempt < if f in CONNECT_PHASE then ConnectBudget(p) else p.maxAttempts
    case Response(status) => status in p.statuses && attempt < p.maxAttempts
  }

  function SentCount(script: Script, calls: nat): nat {
    if calls == 0 then 0 else SentCount(script, calls - 1) + if Sent(script(calls)) then 1 else 0
  }

  /* ---- the pauses ---- */

  function Power2(n: nat): (r: real)
    ensures r >= 1.0
  {
    if n == 0 then 1.0 else 2.0 * Power2(n - 1)
  }

  function BackoffDelay(attempt: nat, jitter: real): real
    requires attempt >= 1
  {
    var delay := 0.2 * Power2(attempt - 1) * (1.0 + jitter);
    if delay <= 2.0 then delay else 2.0
  }

  ghost predicate Jitters(jitter: Jitter) {
    forall n :: -0.1 <= jitter(n) <= 0.1
  }

  ghost function Slept(jitter: Jitter, pauses: nat): real {
    if pauses == 0 then 0.0 else Slept(jitter, pauses - 1) + BackoffDelay(pauses, jitter(pauses))
  }

  lemma {:induction false} SleptAtMost(jitter: Jitter, pauses: nat)
    ensures Slept(jitter, pauses) <= 2.0 * pauses as real
  {
    if pauses > 0 {
      SleptAtMost(jitter, pauses - 1);
    }
  }

  /** The pauses also add up to at most the jittered geometric sum. */
  lemma {:induction false} SleptGeometric(jitter: Jitter, pauses: nat)
    requires Jitters(jitter)
    ensures Slept(jitter, pauses) <= 0.22 * (Power2(pauses) - 1.0)
  {
    if pauses > 0 {
      SleptGeometric(jitter, pauses - 1);
      assert -0.1 <= jitter(pauses) <= 0.1;
      JitteredDelay(pauses, jitter(pauses));
    }
  }

  lemma JitteredDelay(attempt: nat, jitter: real)
    requires attempt >= 1 && -0.1 <= jitter <= 0.1
    ensures BackoffDelay(attempt, jitter) <= 0.22 * Power2(attempt - 1)
    ensures BackoffDelay(attempt, jitter) <= 2.0
    ensures BackoffDelay(attempt, jitter) == 2.0 || BackoffDelay(attempt, jitter) >= 0.18 * Power2(attempt - 1)
  {
    var p := Power2(attempt - 1);
    var scaled := p * (1.0 + jitter);
    assert p * 0.9 <= scaled <= p * 1.1;
    assert 0.2 * p * (1.0 + jitter) == 0.2 * scaled;
    assert 0.18 * p <= 0.2 * scaled <= 0.22 * p;
  }

  /** Without jitter a pause is twice the one before, up to the cap, and the first is a fifth of a second. */
  lemma PausesDouble(attempt: nat)
    requires attempt >= 1
    ensures BackoffDelay(1, 0.0) == 0.2
    ensures var twice := 2.0 * BackoffDelay(attempt, 0.0);
      BackoffDelay(attempt + 1, 0.0) == if twice <= 2.0 then twice else 2.0
  {
  }

  /* ---- the retry loop ---- */

  /** The caller named this failure or status as transient. */
  predicate Retryable(p: Policy, o: Outcome) {
    if o.Raised? then o.failure in p.failures else o.status in p.statuses
  }

  /** The attempts allowed for such an outcome: failures before anything was sent may have more. */
  function BudgetFor(p: Policy, o: Outcome): int {
    if Sent(o) || p.connectMax.None? then p.maxAttempts else p.connectMax.value
  }

  datatype Result = Done(outcome: Outcome) | FellThrough

  /** Every call before the `calls`-th was retried. */
  ghost predicate AllRetried(p: Policy, script: Script, calls: nat) {
    forall n :: 1 <= n < calls ==> Retries(p, script(n), n)
  }

  lemma {:induction false} RetriedSends(p: Policy, script: Script, n: nat, calls: nat)
    requires AllRetried(p, script, calls) && n < calls
    ensures SentCount(script, n) <= n && SentCount(script, n) <= Max(0, p.maxAttempts - 1)
  {
    if n > 0 {
      RetriedSends(p, script, n - 1, calls);
      assert Retries(p, script(n), n);
    }
  }

  /** With no failure retried but those of the connection phase, no retried call was sent. */
  lemma {:induction false} RetriedUnsent(p: Policy, script: Script, n: nat, calls: nat)
    requires p.failures <= CONNECT_PHASE && p.statuses == {}
    requires AllRetried(p, script, calls) && n < calls
    ensures SentCount(script, n) == 0
  {
    if n > 0 {
      RetriedUnsent(p, script, n - 1, calls);
      assert Retries(p, script(n), n);
    }
  }

  /**
    The loop stops at the first outcome the policy does not retry and hands that outcome on; it falls
    through only when the budgets allow no call at all.
  */
  method WithRetry(script: Script, jitter: Jitter, p: Policy)
    returns (result: Result, calls: nat, sent: nat, slept: real)
    ensures result.FellThrough? <==> EffectiveMax(p) <= 0
    ensures result.FellThrough? ==> calls == 0
    ensures result.Done? ==> 1 <= calls <= EffectiveMax(p) && result.outcome == script(calls)
    ensures result.Done? ==> !Retries(p, script(calls), calls)
    ensures AllRetried(p, script, calls)
    ensures forall n :: 1 <= n < calls ==> Retryable(p, script(n)) && n < BudgetFor(p, script(n))
    ensures result.Done? && Retryable(p, result.outcome) ==> calls >= BudgetFor(p, result.outcome)
    ensures sent == SentCount(script, calls) <= Max(1, p.maxAttempts)
    ensures slept == if calls == 0 then 0.0 else Slept(jitter, calls - 1)
  {
    var effectiveMax := EffectiveMax(p);
    calls, sent, slept := 0, 0, 0.0;
    for attempt := 1 to Max(effectiveMax, 0) + 1
      invariant calls == attempt - 1
      invariant forall n :: 1 <= n <= calls ==> Retries(p, script(n), n)
      invariant sent == SentCount(script, calls)
      invariant slept == Slept(jitter, calls)
    {
      var outcome := script(attempt);
      calls := attempt;
      if Sent(outcome) {
        sent := sent + 1;
      }
      RetriedSends(p, script, calls - 1, calls);
      if outcome.Raised? {
        if outcome.failure !in p.failures {
          return Done(outcome), calls, sent, slept;
        }
        var limit := if outcome.failure in CONNECT_PHASE then ConnectBudget(p) else p.maxAttempts;
        if attempt < limit {
          slept := slept + BackoffDelay(attempt, jitter(attempt));
          continue;
        }
        return Done(outcome), calls, sent, slept;
      }
      if outcome.status in p.statuses && attempt < p.maxAttempts {
        slept := slept + BackoffDelay(attempt, jitter(attempt));
        continue;
      }
      return Done(outcome), calls, sent, slept;
    }
    assert effectiveMax > 0 ==> Retries(p, script(effectiveMax), effectiveMax);
    result := FellThrough;
  }

  /** The policy for non-idempotent calls: at most one request is ever sent, and it is the last call. */
  method WithConnectPhaseRetry(script: Script, jitter: Jitter)
    returns (result: Result, calls: nat, sent: nat, slept: real)
    requires Jitters(jitter)
    ensures result.Done? && 1 <= calls <= 5 && result.outcome == script(calls)
    ensures sent == SentCount(script, calls) <= 1
    ensures forall n :: 1 <= n < calls ==>
      script(n).Raised? && script(n).failure in {ConnectTimeout, ConnectError, PoolTimeout} && !Sent(script(n))
    ensures !Sent(result.outcome) ==> calls == 5 && sent == 0
    ensures slept <= 3.3
  {
    result, calls, sent, slept := WithRetry(script, jitter, NON_IDEMPOTENT);
    RetriedUnsent(NON_IDEMPOTENT, script, calls - 1, calls);
    SleptGeometric(jitter, calls - 1);
    Power2Monotone(calls - 1, 4);
    assert Power2(4) == 16.0;
  }

  /** The default policy: at most three calls, and fewer only when the last outcome is not transient. */
  method WithDefaultRetry(script: Script, jitter: Jitter)
    returns (result: Result, calls: nat, sent: nat, slept: real)
    requires Jitters(jitter)
    ensures result.Done? && 1 <= calls <= 3 && result.outcome == script(calls)
    ensures calls < 3 ==> match script(calls)
      case Raised(f) => f == OtherFailure
      case Response(status) => status != 502 && status != 503 && status != 504
    ensures forall n :: 1 <= n < calls ==> match script(n)
      case Raised(f) => f != OtherFailure
      case Response(status) => status == 502 || status == 503 || status == 504
    ensures sent == SentCount(script, calls) <= 3 && slept <= 0.66
  {
    result, calls, sent, slept := WithRetry(script, jitter, IDEMPOTENT);
    SleptGeometric(jitter, calls - 1);
    Power2Monotone(calls - 1, 2);
    assert Power2(2) == 4.0;
  }

  lemma {:induction false} Power2Monotone(m: nat, n: nat)
    requires m <= n
    ensures Power2(m) <= Power2(n)
  {
    if m < n {
      Power2Monotone(m, n - 1);
    }
  }
}
