/**
 * `retryWithExponentialBackoff` (AnalysisBulkDelete.js:272-295): runs a remote
 * operation, and retries it after a wait while it fails with a quota error and
 * the retry budget is not spent. Waits are recorded, not slept.
 */
module Backoff {
  import opened Remote
  import opened Text

  const BASE_DELAY: nat := 2000
  const MAX_RETRIES: nat := 5
  const MAX_BACKOFF: nat := 60000
  const QUOTA_RESET_DELAY: nat := 60000

  const RESOURCE_EXHAUSTED: string := "Resource has been exhausted"
  const QUOTA_EXCEEDED: string := "Quota exceeded"

  /** An error is a quota error when its message mentions one of the two quota signatures. */
  predicate IsQuotaError(message: string) {
    Contains(message, RESOURCE_EXHAUSTED) || Contains(message, QUOTA_EXCEEDED)
  }

  /** The failure answering a call past the end of a script is not a quota error, so it is never retried. */
  lemma ScriptEndNotQuota()
    ensures !IsQuotaError(SCRIPT_END)
  {
  }

  function Pow2(k: nat): (p: nat)
    ensures p >= 1
  {
    if k == 0 then 1 else 2 * Pow2(k - 1)
  }

  function Min(a: nat, b: nat): nat {
    if a <= b then a else b
  }

  /** The wait before retry number `retryCount + 1`, after an error with this message. */
  function RetryDelay(message: string, retryCount: nat): (delay: nat)
    ensures BASE_DELAY <= delay <= MAX_BACKOFF
    ensures Contains(message, QUOTA_EXCEEDED) ==> delay == QUOTA_RESET_DELAY
  {
    if Contains(message, QUOTA_EXCEEDED) then QUOTA_RESET_DELAY
    else Min(BASE_DELAY * Pow2(retryCount), MAX_BACKOFF)
  }

  /**
   * Within the retry budget the cap is never reached: for an error that is not
   * "Quota exceeded", the k-th wait is exactly BASE_DELAY * 2^k.
   */
  lemma DelayUncappedWithinBudget(message: string, retryCount: nat)
    requires retryCount < MAX_RETRIES
    requires !Contains(message, QUOTA_EXCEEDED)
    ensures RetryDelay(message, retryCount) == BASE_DELAY * Pow2(retryCount)
  {
    assert Pow2(retryCount) <= 16 by {
      if retryCount >= 1 { assert Pow2(retryCount) == 2 * Pow2(retryCount - 1); }
      if retryCount >= 2 { assert Pow2(retryCount - 1) == 2 * Pow2(retryCount - 2); }
      if retryCount >= 3 { assert Pow2(retryCount - 2) == 2 * Pow2(retryCount - 3); }
      if retryCount >= 4 { assert Pow2(retryCount - 3) == 2 * Pow2(retryCount - 4); }
    }
  }

  /** The wait before a later retry is never shorter than the wait before an earlier one. */
  lemma {:induction false} DelayMonotone(message: string, j: nat, k: nat)
    requires j <= k
    ensures RetryDelay(message, j) <= RetryDelay(message, k)
    decreases k - j
  {
    if j < k {
      DelayMonotone(message, j, k - 1);
      assert Pow2(k) == 2 * Pow2(k - 1);
    }
  }

  /** The outcome of a retried operation: its last answer, the number of calls and the waits between them. */
  datatype Retried<+T> = Retried(result: Attempt<T>, calls: nat, delays: seq<nat>)

  /**
   * The source's recursion on `retryCount`: the operation's `retryCount`-th
   * call is answered by `script[retryCount]`.
   */
  function RetryFrom<T>(script: seq<Attempt<T>>, retryCount: nat): Retried<T>
    requires retryCount <= MAX_RETRIES
    decreases MAX_RETRIES - retryCount
  {
    match Answer(script, retryCount)
    case Ok(v) => Retried(Ok(v), retryCount + 1, [])
    case Fail(m) =>
      if IsQuotaError(m) && retryCount < MAX_RETRIES then
        var rest := RetryFrom(script, retryCount + 1);
        Retried(rest.result, rest.calls, [RetryDelay(m, retryCount)] + rest.delays)
      else
        Retried(Fail(m), retryCount + 1, [])
  }

  /**
   * At most MAX_RETRIES + 1 calls are made; the last call's answer is
   * returned or rethrown unchanged, and a failure is rethrown only when it is
   * not a quota error or the budget is spent.
   */
  lemma {:induction false} RetryFromResult<T>(script: seq<Attempt<T>>, retryCount: nat)
    requires retryCount <= MAX_RETRIES
    ensures var r := RetryFrom(script, retryCount);
      && retryCount < r.calls <= MAX_RETRIES + 1
      && |r.delays| == r.calls - 1 - retryCount
      && r.result == Answer(script, r.calls - 1)
      && (r.result.Fail? ==> !IsQuotaError(r.result.message) || r.calls == MAX_RETRIES + 1)
    decreases MAX_RETRIES - retryCount
  {
    var a := Answer(script, retryCount);
    if a.Fail? && IsQuotaError(a.message) && retryCount < MAX_RETRIES {
      RetryFromResult(script, retryCount + 1);
    }
  }

  /** Every call before the last failed with a quota error, and was followed by the wait computed for it. */
  lemma {:induction false} RetryFromWaits<T>(script: seq<Attempt<T>>, retryCount: nat)
    requires retryCount <= MAX_RETRIES
    ensures var r := RetryFrom(script, retryCount);
      && |r.delays| == r.calls - 1 - retryCount
      && forall j :: retryCount <= j < r.calls - 1 ==>
           && Answer(script, j).Fail?
           && IsQuotaError(Answer(script, j).message)
           && r.delays[j - retryCount] == RetryDelay(Answer(script, j).message, j)
    decreases MAX_RETRIES - retryCount
  {
    RetryFromResult(script, retryCount);
    var a := Answer(script, retryCount);
    if a.Fail? && IsQuotaError(a.message) && retryCount < MAX_RETRIES {
      RetryFromWaits(script, retryCount + 1);
      var r, rest := RetryFrom(script, retryCount), RetryFrom(script, retryCount + 1);
      assert r.calls == rest.calls && r.delays == [RetryDelay(a.message, retryCount)] + rest.delays;
      forall j | retryCount < j < r.calls - 1
        ensures r.delays[j - retryCount] == RetryDelay(Answer(script, j).message, j)
      {
        assert r.delays[j - retryCount] == rest.delays[j - (retryCount + 1)];
      }
    }
  }

  /** A success answers the caller at once, without any wait. */
  lemma ImmediateSuccess<T>(script: seq<Attempt<T>>)
    requires script != [] && script[0].Ok?
    ensures RetryFrom(script, 0) == Retried(script[0], 1, [])
  {
  }

  /** A non-quota error is rethrown unchanged after a single call and no wait. */
  lemma NonQuotaErrorRethrown<T>(script: seq<Attempt<T>>)
    requires script != [] && script[0].Fail? && !IsQuotaError(script[0].message)
    ensures RetryFrom(script, 0) == Retried(script[0], 1, [])
  {
  }

  function Sum(s: seq<nat>): nat {
    if s == [] then 0 else s[0] + Sum(s[1..])
  }

  /** The waits computed for the quota errors answering calls `lo` up to `hi`. */
  function PlannedDelays<T>(script: seq<Attempt<T>>, lo: nat, hi: nat): seq<nat>
    requires lo <= hi <= |script|
    requires forall j :: lo <= j < hi ==> script[j].Fail?
    decreases hi - lo
  {
    if lo == hi then [] else [RetryDelay(script[lo].message, lo)] + PlannedDelays(script, lo + 1, hi)
  }

  /**
   * A quota error repeated k < MAX_RETRIES times and then a success: the
   * success is returned after k + 1 calls, and the waits are the k computed delays.
   */
  lemma {:induction false} QuotaErrorsThenSuccess<T>(script: seq<Attempt<T>>, retryCount: nat, k: nat)
    requires retryCount <= k < MAX_RETRIES && k < |script|
    requires forall j :: retryCount <= j < k ==> script[j].Fail? && IsQuotaError(script[j].message)
    requires script[k].Ok?
    ensures RetryFrom(script, retryCount) == Retried(script[k], k + 1, PlannedDelays(script, retryCount, k))
    decreases k - retryCount
  {
    if retryCount < k {
      QuotaErrorsThenSuccess(script, retryCount + 1, k);
    }
  }

  /** Quota errors on all MAX_RETRIES + 1 calls: the last one is rethrown, after MAX_RETRIES waits. */
  lemma {:induction false} QuotaErrorsExhaustBudget<T>(script: seq<Attempt<T>>, retryCount: nat)
    requires retryCount <= MAX_RETRIES < |script|
    requires forall j :: retryCount <= j <= MAX_RETRIES ==> script[j].Fail? && IsQuotaError(script[j].message)
    ensures RetryFrom(script, retryCount) == Retried(script[MAX_RETRIES], MAX_RETRIES + 1, PlannedDelays(script, retryCount, MAX_RETRIES))
    decreases MAX_RETRIES - retryCount
  {
    if retryCount < MAX_RETRIES {
      QuotaErrorsExhaustBudget(script, retryCount + 1);
    }
  }

  /**
   * Only "Resource has been exhausted" errors (never "Quota exceeded") for k
   * calls and then a success: the total wait is BASE_DELAY * (2^k - 1).
   */
  lemma {:induction false} ExhaustedThenSuccessTotalWait<T>(script: seq<Attempt<T>>, k: nat)
    requires k < MAX_RETRIES && k < |script|
    requires forall j :: 0 <= j < k ==>
      script[j].Fail? && Contains(script[j].message, RESOURCE_EXHAUSTED) && !Contains(script[j].message, QUOTA_EXCEEDED)
    requires script[k].Ok?
    ensures Sum(RetryFrom(script, 0).delays) == BASE_DELAY * (Pow2(k) - 1)
  {
    QuotaErrorsThenSuccess(script, 0, k);
    PlannedGeometric(script, 0, k);
  }

  lemma {:induction false} PlannedGeometric<T>(script: seq<Attempt<T>>, lo: nat, hi: nat)
    requires lo <= hi < MAX_RETRIES && hi <= |script|
    requires forall j :: lo <= j < hi ==> script[j].Fail? && !Contains(script[j].message, QUOTA_EXCEEDED)
    ensures Sum(PlannedDelays(script, lo, hi)) == BASE_DELAY * (Pow2(hi) - Pow2(lo))
    decreases hi - lo
  {
    if lo < hi {
      PlannedGeometric(script, lo + 1, hi);
      DelayUncappedWithinBudget(script[lo].message, lo);
    }
  }

  /** The total wait of one retried operation is at most MAX_RETRIES * MAX_BACKOFF. */
  lemma {:induction false} TotalWaitBounded<T>(script: seq<Attempt<T>>)
    ensures Sum(RetryFrom(script, 0).delays) <= MAX_RETRIES * MAX_BACKOFF
  {
    var r := RetryFrom(script, 0);
    RetryFromWaits(script, 0);
    SumBounded(r.delays, MAX_BACKOFF);
  }

  lemma {:induction false} SumBounded(s: seq<nat>, bound: nat)
    requires forall i :: 0 <= i < |s| ==> s[i] <= bound
    ensures Sum(s) <= |s| * bound
  {
    if s != [] {
      SumBounded(s[1..], bound);
    }
  }

  /**
   * The retry controller as a bounded loop: calls the operation (consuming the
   * script) until it succeeds, fails with a non-quota error, or the budget is
   * spent, and records the waits it would sleep.
   */
  method RetryWithBackoff<T>(script: seq<Attempt<T>>) returns (result: Attempt<T>, calls: nat, delays: seq<nat>)
    ensures Retried(result, calls, delays) == RetryFrom(script, 0)
    ensures 1 <= calls <= MAX_RETRIES + 1
    ensures result == Answer(script, calls - 1)
    ensures forall d <- delays :: BASE_DELAY <= d <= MAX_BACKOFF
  {
    var retryCount: nat := 0;
    delays := [];
    while true
      invariant retryCount <= MAX_RETRIES && |delays| == retryCount
      invariant forall d <- delays :: BASE_DELAY <= d <= MAX_BACKOFF
      invariant RetryFrom(script, 0) == Prepend(delays, RetryFrom(script, retryCount))
      decreases MAX_RETRIES - retryCount
    {
      var answer := Answer(script, retryCount);
      if answer.Ok? || !IsQuotaError(answer.message) || retryCount == MAX_RETRIES {
        assert RetryFrom(script, retryCount) == Retried(answer, retryCount + 1, []);
        result, calls := answer, retryCount + 1;
        assert delays + [] == delays;
        RetryFromResult(script, 0);
        return;
      }
      ghost var rest := RetryFrom(script, retryCount + 1);
      var delay := RetryDelay(answer.message, retryCount);
      assert RetryFrom(script, retryCount) == Prepend([delay], rest);
      PrependAssociative(delays, [delay], rest);
      delays := delays + [delay];
      retryCount := retryCount + 1;
    }
  }

  /** `r` with the waits `ds` happening before its own. */
  function Prepend<T>(ds: seq<nat>, r: Retried<T>): Retried<T> {
    Retried(r.result, r.calls, ds + r.delays)
  }

  lemma PrependAssociative<T>(a: seq<nat>, b: seq<nat>, r: Retried<T>)
    ensures Prepend(a, Prepend(b, r)) == Prepend(a + b, r)
  {
    assert a + (b + r.delays) == (a + b) + r.delays;
  }
}
