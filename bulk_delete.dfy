/**
 * `bulkDeleteFromSender` (AnalysisBulkDelete.js:196-270): deletes a sender's
 * unread messages page by page. Each round lists one page through the backoff
 * controller and, when the page is not empty, batch-deletes its ids through
 * the backoff controller too. A failed round counts against a budget of three
 * consecutive failures; a successful round resets it and moves to the next
 * page. The loop is a do-while on the page token, and the function returns
 * the number of deleted messages in every case.
 *
 * The listing requests (the query `from:<sender> is:unread`) and the
 * batch-delete requests are answered by two scripts, each consumed in call
 * order.
 */
module BulkDelete {
  import opened Remote
  import opened Backoff

  const MAX_FAILED_ATTEMPTS: nat := 3

  /** What a round ended with: the batch it deleted (and the page's next token), or the error caught. */
  datatype Outcome = Deleted(ids: seq<MessageRef>, next: Option<string>) | Failed(message: string)

  /** How a round left the loop: by the do-while condition, by `break` on an empty page, or by the rethrow after the third failure. */
  datatype Exit = Continue | NoMoreMessages | GaveUp

  /**
   * The loop state: the three variables of the source, the calls consumed
   * from each script, and what has been observed so far (the page token of
   * every listing request, the answer the retried listing gave it, the
   * outcome of every completed round, every wait).
   */
  datatype Deleter = Deleter(
    deletedCount: nat, failedAttempts: nat, nextPageToken: Option<string>,
    listCalls: nat, deleteCalls: nat,
    requests: seq<Option<string>>, listed: seq<Attempt<Page>>, outcomes: seq<Outcome>, waits: seq<nat>)

  function Start(): Deleter {
    Deleter(0, 0, None, 0, 0, [], [], [], [])
  }

  /** `messages.length === 0` after `response.data.messages || []`: the listing returned no message. */
  predicate EmptyListing(page: Attempt<Page>) {
    page.Ok? && PageMessages(page.value) == []
  }

  /**
   * A round's outcome agrees with the listing answer of its request: a
   * deleted batch is exactly the ids of a non-empty listed page, with that
   * page's next token; a failure is the listing's own error, or follows a
   * non-empty page (whose batch delete failed).
   */
  predicate Explains(page: Attempt<Page>, o: Outcome) {
    match o
    case Deleted(ids, next) =>
      page.Ok? && ids == PageMessages(page.value) && ids != [] && next == page.value.nextPageToken
    case Failed(m) =>
      if page.Ok? then PageMessages(page.value) != [] else m == page.message
  }

  /** The catch block: count the failure, rethrow at the third, otherwise wait twice the base delay. */
  function Caught(s: Deleter, message: string): (r: (Deleter, Exit))
    ensures r.0.failedAttempts == s.failedAttempts + 1
    ensures r.1 == GaveUp <==> s.failedAttempts + 1 >= MAX_FAILED_ATTEMPTS
    ensures r.1 != NoMoreMessages
  {
    var failed := s.failedAttempts + 1;
    var t := s.(failedAttempts := failed, outcomes := s.outcomes + [Failed(message)]);
    if failed >= MAX_FAILED_ATTEMPTS then (t, GaveUp)
    else (t.(waits := t.waits + [2 * BASE_DELAY]), Continue)
  }

  /** The outcome of a request starting at call `k`; past the script's end the call fails at once. */
  function RetryAt<T>(table: seq<Retried<T>>, k: nat): Retried<T> {
    if k < |table| then table[k] else Retried(Fail(SCRIPT_END), 1, [])
  }

  /** Every request of a table makes at least one call and waits within the backoff bounds. */
  ghost predicate Sound<T>(table: seq<Retried<T>>) {
    forall k :: 0 <= k < |table| ==> table[k].calls >= 1 && WaitsBounded(table[k].delays)
  }

  /** `table` holds the backoff controller's outcome for a request starting at each call of `script`. */
  ghost predicate Tabulates<T>(script: seq<Attempt<T>>, table: seq<Retried<T>>) {
    && |table| == |script|
    && forall k: nat {:trigger Drop(script, k)} :: k < |table| ==> table[k] == RetryFrom(Drop(script, k), 0)
  }

  lemma TableExists<T>(script: seq<Attempt<T>>)
    ensures exists table :: Tabulates(script, table)
  {
    var table := seq(|script|, k requires 0 <= k < |script| => RetryFrom(Drop(script, k), 0));
    assert Tabulates(script, table);
  }

  /** The backoff controller's outcome for a request starting at each call of `script`. */
  ghost function Table<T>(script: seq<Attempt<T>>): (table: seq<Retried<T>>)
    ensures Tabulates(script, table)
  {
    TableExists(script);
    var table :| Tabulates(script, table); table
  }

  /** The table entry of a request is the backoff controller run on the rest of the script. */
  lemma RetryAtTabulated<T>(script: seq<Attempt<T>>, table: seq<Retried<T>>, k: nat)
    requires Tabulates(script, table)
    ensures RetryAt(table, k) == RetryFrom(Drop(script, k), 0)
  {
    if k >= |script| {
      assert Answer(Drop(script, k), 0) == Fail(SCRIPT_END);
      ScriptEndNotQuota();
    }
  }

  /** Every request makes at least one call and waits within the backoff bounds. */
  lemma TabulatesSound<T>(script: seq<Attempt<T>>, table: seq<Retried<T>>)
    requires Tabulates(script, table)
    ensures Sound(table)
  {
    forall k | 0 <= k < |table| ensures table[k].calls >= 1 && WaitsBounded(table[k].delays) {
      assert table[k] == RetryFrom(Drop(script, k), 0);
      RetryFromResult(Drop(script, k), 0);
      RetryWaitsBounded(Drop(script, k), 0);
    }
  }

  /** How the try block of a round ended: at an empty page, by an error, or with a deleted batch and the page's next token. */
  datatype Ended = Emptied | Threw(message: string) | Cleared(ids: seq<MessageRef>, next: Option<string>)

  /**
   * What the try block of a round did: the listing's answer, the calls
   * consumed from each script by then, its waits, and how it ended.
   */
  datatype TryBlock = TryBlock(listed: Attempt<Page>, listCalls: nat, deleteCalls: nat, waits: seq<nat>, ended: Ended)

  /**
   * The try block of a round, given the backoff controller's outcomes `lt`
   * for listing requests and `dt` for batch deletes: list a page, stop at an
   * empty page, otherwise batch-delete its ids and wait the base delay. Every
   * try block makes at least one listing call, and once the listing script
   * is used up it throws. It ends at an empty page exactly when the listing
   * returned one; it deletes a batch exactly when the listing returned a
   * non-empty page and the batch delete then succeeded, and that batch is the
   * page's ids; otherwise it throws the listing's or the batch delete's error.
   */
  function TryRound(lt: seq<Retried<Page>>, dt: seq<Retried<()>>, listCalls: nat, deleteCalls: nat): (b: TryBlock)
    requires Sound(lt) && Sound(dt)
    ensures b.listCalls > listCalls
    ensures listCalls >= |lt| ==> b.ended.Threw?
    ensures b.listed == RetryAt(lt, listCalls).result
    ensures b.ended.Emptied? <==> EmptyListing(b.listed)
    ensures b.ended.Cleared? <==> b.listed.Ok? && PageMessages(b.listed.value) != [] && RetryAt(dt, deleteCalls).result.Ok?
    ensures b.ended.Cleared? ==> Explains(b.listed, Deleted(b.ended.ids, b.ended.next))
    ensures b.ended.Threw? ==> Explains(b.listed, Failed(b.ended.message))
    ensures b.ended.Threw? && b.listed.Ok? ==> RetryAt(dt, deleteCalls).result == Fail(b.ended.message)
  {
    var l := RetryAt(lt, listCalls);
    match l.result
    case Fail(e) => TryBlock(l.result, listCalls + l.calls, deleteCalls, l.delays, Threw(e))
    case Ok(page) =>
      var ids := PageMessages(page);
      if ids == [] then TryBlock(l.result, listCalls + l.calls, deleteCalls, l.delays, Emptied)
      else
        var d := RetryAt(dt, deleteCalls);
        match d.result
        case Fail(e) => TryBlock(l.result, listCalls + l.calls, deleteCalls + d.calls, l.delays + d.delays, Threw(e))
        case Ok(_) => TryBlock(l.result, listCalls + l.calls, deleteCalls + d.calls, l.delays + d.delays + [BASE_DELAY], Cleared(ids, page.nextPageToken))
  }

  /**
   * One round of the do-while body: the request with the current token, the
   * try block, and then the catch block or the bookkeeping of a deleted
   * batch. A round that continues leaves fewer than three failures.
   */
  function Round(lt: seq<Retried<Page>>, dt: seq<Retried<()>>, s: Deleter): (r: (Deleter, Exit))
    requires Sound(lt) && Sound(dt)
    ensures r.0.listCalls > s.listCalls
    ensures r.1 == Continue ==> r.0.failedAttempts < MAX_FAILED_ATTEMPTS
    ensures s.listCalls >= |lt| ==> r.0.failedAttempts == s.failedAttempts + 1
  {
    Settle(s, TryRound(lt, dt, s.listCalls, s.deleteCalls))
  }

  /**
   * A round records the listing answer of its request. It leaves the loop at
   * an empty page exactly when the listing returned one, and then neither
   * the outcomes nor the count move; otherwise it adds one outcome that
   * agrees with the listing, and it deletes a batch exactly when the page was
   * not empty and the batch delete succeeded.
   */
  lemma RoundListing(lt: seq<Retried<Page>>, dt: seq<Retried<()>>, s: Deleter)
    requires Sound(lt) && Sound(dt)
    ensures var (t, x) := Round(lt, dt, s);
      var page := RetryAt(lt, s.listCalls).result;
      && t.listed == s.listed + [page]
      && t.requests == s.requests + [s.nextPageToken]
      && (x == NoMoreMessages <==> EmptyListing(page))
      && (x == NoMoreMessages ==> t.outcomes == s.outcomes && t.deletedCount == s.deletedCount)
      && (x != NoMoreMessages ==>
            && t.outcomes[..|s.outcomes|] == s.outcomes && |t.outcomes| == |s.outcomes| + 1
            && Explains(page, t.outcomes[|s.outcomes|])
            && (t.outcomes[|s.outcomes|].Deleted? <==>
                  page.Ok? && PageMessages(page.value) != [] && RetryAt(dt, s.deleteCalls).result.Ok?))
  {
    var b := TryRound(lt, dt, s.listCalls, s.deleteCalls);
    var t := Round(lt, dt, s).0;
    if !b.ended.Emptied? {
      assert t.outcomes[..|s.outcomes|] == s.outcomes;
    }
  }

  /** The rest of a round once its try block `b` has run: the catch block, or the bookkeeping of a deleted batch. */
  function Settle(s: Deleter, b: TryBlock): (r: (Deleter, Exit))
    ensures r.0.listCalls == b.listCalls
    ensures r.1 == Continue ==> r.0.failedAttempts < MAX_FAILED_ATTEMPTS
    ensures b.ended.Threw? ==> r.0.failedAttempts == s.failedAttempts + 1
  {
    var s1 := s.(listCalls := b.listCalls, deleteCalls := b.deleteCalls,
                 requests := s.requests + [s.nextPageToken], listed := s.listed + [b.listed], waits := s.waits + b.waits);
    match b.ended
    case Emptied => (s1, NoMoreMessages)
    case Threw(e) => Caught(s1, e)
    case Cleared(ids, next) => (Removed(s1, ids, next), Continue)
  }

  /** The bookkeeping of a deleted batch: count it, reset the failures, move to the next page. */
  function Removed(s: Deleter, ids: seq<MessageRef>, next: Option<string>): Deleter {
    s.(deletedCount := s.deletedCount + |ids|, failedAttempts := 0, nextPageToken := next,
       outcomes := s.outcomes + [Deleted(ids, next)])
  }

  /** The do-while loop from state `s`: rounds run while they continue and the token is truthy. */
  function RunFrom(lt: seq<Retried<Page>>, dt: seq<Retried<()>>, s: Deleter): (Deleter, Exit)
    requires Sound(lt) && Sound(dt) && s.failedAttempts < MAX_FAILED_ATTEMPTS
    decreases |lt| - Min(s.listCalls, |lt|), MAX_FAILED_ATTEMPTS - s.failedAttempts
  {
    var r := Round(lt, dt, s);
    if r.1 == Continue && Truthy(r.0.nextPageToken) then RunFrom(lt, dt, r.0) else r
  }

  /** `bulkDeleteFromSender` on a listing script and a batch-delete script. */
  ghost function Run(listing: seq<Attempt<Page>>, deletes: seq<Attempt<()>>): (Deleter, Exit) {
    TabulatesSound(listing, Table(listing));
    TabulatesSound(deletes, Table(deletes));
    RunFrom(Table(listing), Table(deletes), Start())
  }

  /** The number of messages in the batches that were deleted. */
  function DeletedTotal(outcomes: seq<Outcome>): nat {
    if outcomes == [] then 0
    else
      var last := outcomes[|outcomes| - 1];
      DeletedTotal(outcomes[..|outcomes| - 1]) + (if last.Deleted? then |last.ids| else 0)
  }

  /** The number of failures since the last deleted batch. */
  function TrailingFailures(outcomes: seq<Outcome>): nat {
    if outcomes == [] || outcomes[|outcomes| - 1].Deleted? then 0
    else 1 + TrailingFailures(outcomes[..|outcomes| - 1])
  }

  /** Three failed rounds in a row start at `i`. */
  predicate StreakAt(outcomes: seq<Outcome>, i: nat) {
    i + 3 <= |outcomes| && outcomes[i].Failed? && outcomes[i + 1].Failed? && outcomes[i + 2].Failed?
  }

  /** No three failures in a row, except possibly the last three rounds. */
  predicate NoEarlierStreak(outcomes: seq<Outcome>) {
    forall i: nat :: i + 3 < |outcomes| ==> !StreakAt(outcomes, i)
  }

  /** The page token the next round requests: a deleted batch moves on, a failure keeps the token. */
  function TokenAfter(request: Option<string>, outcome: Outcome): Option<string> {
    if outcome.Deleted? then outcome.next else request
  }

  /** The token the state holds after the recorded requests and outcomes. */
  function LastToken(requests: seq<Option<string>>, outcomes: seq<Outcome>): Option<string>
    requires |outcomes| <= |requests| <= |outcomes| + 1
  {
    if requests == [] then None
    else if |requests| > |outcomes| then requests[|requests| - 1]
    else TokenAfter(requests[|requests| - 1], outcomes[|outcomes| - 1])
  }

  /**
   * The count is the total of the deleted batches; `failedAttempts` counts
   * the failures since the last success and never passes three, and three
   * failures in a row are never followed by another round.
   */
  ghost predicate Counted(deletedCount: nat, failedAttempts: nat, outcomes: seq<Outcome>) {
    && deletedCount == DeletedTotal(outcomes)
    && failedAttempts == TrailingFailures(outcomes) <= MAX_FAILED_ATTEMPTS
    && NoEarlierStreak(outcomes)
  }

  /**
   * The first request has no token and every later one a truthy token,
   * namely the token left by the previous round; `token` is the token the
   * last round left, or the last one requested when that round is still open.
   */
  ghost predicate TokensFollow(requests: seq<Option<string>>, outcomes: seq<Outcome>, token: Option<string>) {
    && |outcomes| <= |requests| <= |outcomes| + 1
    && (requests != [] ==> requests[0] == None)
    && (forall k :: 0 < k < |requests| ==> Truthy(requests[k]))
    && (forall k :: 0 <= k < |requests| - 1 ==> requests[k + 1] == TokenAfter(requests[k], outcomes[k]))
    && token == LastToken(requests, outcomes)
  }

  /** Every wait lies within the backoff bounds. */
  ghost predicate WaitsBounded(waits: seq<nat>) {
    forall w <- waits :: BASE_DELAY <= w <= MAX_BACKOFF
  }

  /** One listing answer per request, and each completed round's outcome agrees with its request's answer. */
  ghost predicate Explained(listed: seq<Attempt<Page>>, requests: seq<Option<string>>, outcomes: seq<Outcome>) {
    && |listed| == |requests|
    && |outcomes| <= |listed|
    && forall k :: 0 <= k < |outcomes| ==> Explains(listed[k], outcomes[k])
  }

  /** What the loop keeps true of its state. */
  ghost predicate Accounted(s: Deleter) {
    && Counted(s.deletedCount, s.failedAttempts, s.outcomes)
    && TokensFollow(s.requests, s.outcomes, s.nextPageToken)
    && Explained(s.listed, s.requests, s.outcomes)
    && WaitsBounded(s.waits)
  }

  /** A state the loop may start a round in. */
  ghost predicate Ready(s: Deleter) {
    && Accounted(s)
    && |s.requests| == |s.outcomes|
    && s.failedAttempts < MAX_FAILED_ATTEMPTS
    && (s.outcomes != [] ==> Truthy(s.nextPageToken))
  }

  lemma StartReady()
    ensures Ready(Start())
  {
  }

  /** The last three rounds failed exactly when at least three failures trail. */
  lemma LastStreak(outcomes: seq<Outcome>)
    requires |outcomes| >= 3
    ensures StreakAt(outcomes, |outcomes| - 3) <==> TrailingFailures(outcomes) >= 3
  {
    var n := |outcomes|;
    assert outcomes[..n - 1][..n - 2] == outcomes[..n - 2];
    assert outcomes[..n - 2][..n - 3] == outcomes[..n - 3];
  }

  /** Recording a round's outcome keeps the count, the failure streak and the streak rule. */
  lemma CountedSnoc(deletedCount: nat, failedAttempts: nat, outcomes: seq<Outcome>, o: Outcome)
    requires Counted(deletedCount, failedAttempts, outcomes) && failedAttempts < MAX_FAILED_ATTEMPTS
    ensures Counted(deletedCount + (if o.Deleted? then |o.ids| else 0),
                    if o.Deleted? then 0 else failedAttempts + 1, outcomes + [o])
  {
    var r := outcomes + [o];
    assert r[..|outcomes|] == outcomes;
    forall i: nat | i + 3 < |r| ensures !StreakAt(r, i) {
      assert r[i] == outcomes[i] && r[i + 1] == outcomes[i + 1] && r[i + 2] == outcomes[i + 2];
      if i + 3 == |outcomes| {
        LastStreak(outcomes);
      } else {
        assert !StreakAt(outcomes, i);
      }
    }
  }

  /** Recording a round's outcome closes the open request with the token it leaves. */
  lemma TokensSnoc(requests: seq<Option<string>>, outcomes: seq<Outcome>, token: Option<string>, o: Outcome)
    requires TokensFollow(requests, outcomes, token) && |requests| == |outcomes| + 1
    ensures TokensFollow(requests, outcomes + [o], TokenAfter(token, o))
  {
    var r := outcomes + [o];
    forall k | 0 <= k < |requests| - 1 ensures requests[k + 1] == TokenAfter(requests[k], r[k]) {
      assert r[k] == outcomes[k];
    }
  }

  /** Opening a request with the current token, truthy unless it is the first. */
  lemma TokensRequest(requests: seq<Option<string>>, outcomes: seq<Outcome>, token: Option<string>)
    requires TokensFollow(requests, outcomes, token) && |requests| == |outcomes|
    requires requests != [] ==> Truthy(token)
    ensures TokensFollow(requests + [token], outcomes, token)
  {
    var q := requests + [token];
    forall k | 0 <= k < |q| - 1 ensures q[k + 1] == TokenAfter(q[k], outcomes[k]) {
      assert q[k] == requests[k];
    }
  }

  lemma WaitsAppend(a: seq<nat>, b: seq<nat>)
    requires WaitsBounded(a) && WaitsBounded(b)
    ensures WaitsBounded(a + b)
  {
  }

  /** The waits of the backoff controller lie within its bounds. */
  lemma {:induction false} RetryWaitsBounded<T>(script: seq<Attempt<T>>, retryCount: nat)
    requires retryCount <= MAX_RETRIES
    ensures WaitsBounded(RetryFrom(script, retryCount).delays)
    decreases MAX_RETRIES - retryCount
  {
    var a := Answer(script, retryCount);
    if a.Fail? && IsQuotaError(a.message) && retryCount < MAX_RETRIES {
      RetryWaitsBounded(script, retryCount + 1);
      WaitsAppend([RetryDelay(a.message, retryCount)], RetryFrom(script, retryCount + 1).delays);
    }
  }

  /** Opening a request records its listing answer. */
  lemma ExplainedOpen(listed: seq<Attempt<Page>>, requests: seq<Option<string>>, outcomes: seq<Outcome>,
                      page: Attempt<Page>, token: Option<string>)
    requires Explained(listed, requests, outcomes) && |outcomes| == |listed|
    ensures Explained(listed + [page], requests + [token], outcomes)
  {
    var l := listed + [page];
    forall k | 0 <= k < |outcomes| ensures Explains(l[k], outcomes[k]) {
      assert l[k] == listed[k];
    }
  }

  /** Closing the open request with an outcome that agrees with its listing answer. */
  lemma ExplainedSnoc(listed: seq<Attempt<Page>>, requests: seq<Option<string>>, outcomes: seq<Outcome>, o: Outcome)
    requires Explained(listed, requests, outcomes) && |outcomes| + 1 == |listed|
    requires Explains(listed[|listed| - 1], o)
    ensures Explained(listed, requests, outcomes + [o])
  {
    var r := outcomes + [o];
    forall k | 0 <= k < |r| ensures Explains(listed[k], r[k]) {
      if k < |outcomes| {
        assert r[k] == outcomes[k];
      }
    }
  }

  /** A failed round records its error, keeps the token and keeps the loop's accounting. */
  lemma CaughtAccounted(s: Deleter, message: string)
    requires Accounted(s) && |s.requests| == |s.outcomes| + 1 && s.failedAttempts < MAX_FAILED_ATTEMPTS
    requires Explains(s.listed[|s.listed| - 1], Failed(message))
    ensures var (t, x) := Caught(s, message);
      && Accounted(t) && |t.requests| == |t.outcomes|
      && t.outcomes == s.outcomes + [Failed(message)] && t.requests == s.requests
      && t.nextPageToken == s.nextPageToken && t.deletedCount == s.deletedCount
  {
    CountedSnoc(s.deletedCount, s.failedAttempts, s.outcomes, Failed(message));
    TokensSnoc(s.requests, s.outcomes, s.nextPageToken, Failed(message));
    ExplainedSnoc(s.listed, s.requests, s.outcomes, Failed(message));
    WaitsAppend(s.waits, [2 * BASE_DELAY]);
  }

  /** A deleted batch is counted, resets the failures, moves the token on and keeps the loop's accounting. */
  lemma RemovedAccounted(s: Deleter, ids: seq<MessageRef>, next: Option<string>)
    requires Accounted(s) && |s.requests| == |s.outcomes| + 1 && s.failedAttempts < MAX_FAILED_ATTEMPTS
    requires Explains(s.listed[|s.listed| - 1], Deleted(ids, next))
    ensures var t := Removed(s, ids, next); Accounted(t) && |t.requests| == |t.outcomes|
  {
    CountedSnoc(s.deletedCount, s.failedAttempts, s.outcomes, Deleted(ids, next));
    TokensSnoc(s.requests, s.outcomes, s.nextPageToken, Deleted(ids, next));
    ExplainedSnoc(s.listed, s.requests, s.outcomes, Deleted(ids, next));
  }

  /** The waits of a try block lie within the backoff bounds. */
  lemma TryWaitsBounded(lt: seq<Retried<Page>>, dt: seq<Retried<()>>, listCalls: nat, deleteCalls: nat)
    requires Sound(lt) && Sound(dt)
    ensures WaitsBounded(TryRound(lt, dt, listCalls, deleteCalls).waits)
  {
    var l := RetryAt(lt, listCalls);
    var d := RetryAt(dt, deleteCalls);
    WaitsAppend(l.delays, d.delays);
    WaitsAppend(l.delays + d.delays, [BASE_DELAY]);
  }

  /** A round started in a ready state keeps the loop's accounting. */
  lemma RoundAccounted(lt: seq<Retried<Page>>, dt: seq<Retried<()>>, s: Deleter)
    requires Sound(lt) && Sound(dt) && Ready(s)
    ensures var (t, x) := Round(lt, dt, s);
      && Accounted(t)
      && (x == NoMoreMessages <==> |t.requests| == |t.outcomes| + 1)
      && (x == NoMoreMessages ==> EmptyListing(t.listed[|t.listed| - 1]))
      && (x == GaveUp <==> t.failedAttempts == MAX_FAILED_ATTEMPTS)
  {
    var b := TryRound(lt, dt, s.listCalls, s.deleteCalls);
    TryWaitsBounded(lt, dt, s.listCalls, s.deleteCalls);
    WaitsAppend(s.waits, b.waits);
    TokensRequest(s.requests, s.outcomes, s.nextPageToken);
    ExplainedOpen(s.listed, s.requests, s.outcomes, b.listed, s.nextPageToken);
    var s1 := s.(listCalls := b.listCalls, deleteCalls := b.deleteCalls,
                 requests := s.requests + [s.nextPageToken], listed := s.listed + [b.listed], waits := s.waits + b.waits);
    assert Accounted(s1);
    match b.ended
    case Emptied =>
    case Threw(e) =>
      CaughtAccounted(s1, e);
    case Cleared(ids, next) =>
      RemovedAccounted(s1, ids, next);
  }

  /** Every run from a ready state ends in an accounted state, with its exit reflected in it. */
  lemma {:induction false} RunFromAccounted(lt: seq<Retried<Page>>, dt: seq<Retried<()>>, s: Deleter)
    requires Sound(lt) && Sound(dt) && Ready(s)
    ensures var (t, x) := RunFrom(lt, dt, s);
      && Accounted(t)
      && |t.requests| > |s.requests|
      && (x == NoMoreMessages <==> |t.requests| == |t.outcomes| + 1)
      && (x == NoMoreMessages ==> EmptyListing(t.listed[|t.listed| - 1]))
      && (x == GaveUp <==> t.failedAttempts == MAX_FAILED_ATTEMPTS)
      && (x == Continue ==> !Truthy(t.nextPageToken))
    decreases |lt| - Min(s.listCalls, |lt|), MAX_FAILED_ATTEMPTS - s.failedAttempts
  {
    var (t, x) := Round(lt, dt, s);
    RoundAccounted(lt, dt, s);
    if x == Continue && Truthy(t.nextPageToken) {
      RunFromAccounted(lt, dt, t);
    }
  }

  lemma {:induction false} TrailingAtMostLength(outcomes: seq<Outcome>)
    ensures TrailingFailures(outcomes) <= |outcomes|
  {
    if outcomes != [] {
      TrailingAtMostLength(outcomes[..|outcomes| - 1]);
    }
  }

  /**
   * The function's result is the total of the batches whose delete succeeded
   * (never negative); it gives up exactly when the last three rounds failed,
   * and three failures in a row never happen before that; the first request
   * has no token, and after a failure the same page is requested again,
   * after a success the page the listing named; each deleted batch is the
   * ids of the non-empty page listed for its request, and a failure is the
   * listing's error or follows a non-empty page; the loop ends without an
   * outcome for its last request exactly when that request listed an empty
   * page.
   */
  lemma RunAccounted(listing: seq<Attempt<Page>>, deletes: seq<Attempt<()>>)
    ensures var (t, x) := Run(listing, deletes);
      && Counted(t.deletedCount, t.failedAttempts, t.outcomes)
      && TokensFollow(t.requests, t.outcomes, t.nextPageToken)
      && Explained(t.listed, t.requests, t.outcomes)
      && WaitsBounded(t.waits)
      && t.requests != []
      && (x == GaveUp <==> |t.outcomes| >= 3 && StreakAt(t.outcomes, |t.outcomes| - 3))
      && (x == NoMoreMessages <==> |t.requests| == |t.outcomes| + 1)
      && (x == NoMoreMessages ==> EmptyListing(t.listed[|t.listed| - 1]))
      && (x == Continue ==> !Truthy(t.nextPageToken))
  {
    TabulatesSound(listing, Table(listing));
    TabulatesSound(deletes, Table(deletes));
    StartAccounted(Table(listing), Table(deletes));
  }

  lemma StartAccounted(lt: seq<Retried<Page>>, dt: seq<Retried<()>>)
    requires Sound(lt) && Sound(dt)
    ensures var (t, x) := RunFrom(lt, dt, Start());
      && Counted(t.deletedCount, t.failedAttempts, t.outcomes)
      && TokensFollow(t.requests, t.outcomes, t.nextPageToken)
      && Explained(t.listed, t.requests, t.outcomes)
      && WaitsBounded(t.waits)
      && t.requests != []
      && (x == GaveUp <==> |t.outcomes| >= 3 && StreakAt(t.outcomes, |t.outcomes| - 3))
      && (x == NoMoreMessages <==> |t.requests| == |t.outcomes| + 1)
      && (x == NoMoreMessages ==> EmptyListing(t.listed[|t.listed| - 1]))
      && (x == Continue ==> !Truthy(t.nextPageToken))
  {
    StartReady();
    RunFromAccounted(lt, dt, Start());
    var (t, x) := RunFrom(lt, dt, Start());
    if |t.outcomes| >= 3 {
      LastStreak(t.outcomes);
    } else {
      TrailingAtMostLength(t.outcomes);
    }
  }

  /**
   * A first round that fails ends the loop: the token it leaves is still the
   * initial null, so the do-while condition is false and nothing is retried.
   */
  lemma FirstFailureEndsRun(listing: seq<Attempt<Page>>, deletes: seq<Attempt<()>>)
    ensures var (t, x) := Run(listing, deletes);
      t.outcomes != [] && t.outcomes[0].Failed? ==>
        && t.outcomes == [t.outcomes[0]] && |t.requests| == 1
        && t.deletedCount == 0 && x == Continue
  {
    RunAccounted(listing, deletes);
    var (t, x) := Run(listing, deletes);
    OnlySuccessMovesOn(t.requests, t.outcomes, t.nextPageToken);
    if t.outcomes != [] && t.outcomes[0].Failed? {
      assert DeletedTotal(t.outcomes) == DeletedTotal([]) + 0;
    }
  }

  /** A second request is made only after a first round that deleted a batch, since a truthy token is needed. */
  lemma OnlySuccessMovesOn(requests: seq<Option<string>>, outcomes: seq<Outcome>, token: Option<string>)
    requires TokensFollow(requests, outcomes, token)
    ensures |requests| > 1 ==> outcomes[0].Deleted?
  {
    if |requests| > 1 {
      assert requests[1] == TokenAfter(requests[0], outcomes[0]);
    }
  }

  /** A failure after a success requests the same page again. */
  lemma FailureRetriesSamePage(listing: seq<Attempt<Page>>, deletes: seq<Attempt<()>>, k: nat)
    ensures var (t, x) := Run(listing, deletes);
      k < |t.outcomes| && k + 1 < |t.requests| && t.outcomes[k].Failed? ==> t.requests[k + 1] == t.requests[k]
  {
    RunAccounted(listing, deletes);
  }

  /**
   * `rounds` lists states at the top of the loop, each round from one of
   * them continuing, with a truthy token, into the next.
   */
  ghost predicate Chain(lt: seq<Retried<Page>>, dt: seq<Retried<()>>, rounds: seq<Deleter>)
    requires Sound(lt) && Sound(dt)
    decreases |rounds|
  {
    |rounds| <= 1 ||
      (&& rounds[0].failedAttempts < MAX_FAILED_ATTEMPTS
       && Round(lt, dt, rounds[0]) == (rounds[1], Continue)
       && Truthy(rounds[1].nextPageToken)
       && Chain(lt, dt, rounds[1..]))
  }

  /** A round that continues with a truthy token extends a chain. */
  lemma {:induction false} ChainSnoc(lt: seq<Retried<Page>>, dt: seq<Retried<()>>, rounds: seq<Deleter>, next: Deleter)
    requires Sound(lt) && Sound(dt)
    requires rounds != [] && Chain(lt, dt, rounds)
    requires rounds[|rounds| - 1].failedAttempts < MAX_FAILED_ATTEMPTS
    requires Round(lt, dt, rounds[|rounds| - 1]) == (next, Continue) && Truthy(next.nextPageToken)
    ensures Chain(lt, dt, rounds + [next])
    decreases |rounds|
  {
    var r := rounds + [next];
    if |rounds| > 1 {
      assert r[1..] == rounds[1..] + [next];
      ChainSnoc(lt, dt, rounds[1..], next);
    }
  }

  /** A chain followed by a round that ends the loop is the loop from the chain's first state. */
  lemma {:induction false} ChainRun(lt: seq<Retried<Page>>, dt: seq<Retried<()>>, rounds: seq<Deleter>, last: (Deleter, Exit))
    requires Sound(lt) && Sound(dt)
    requires rounds != [] && Chain(lt, dt, rounds)
    requires rounds[0].failedAttempts < MAX_FAILED_ATTEMPTS
    requires rounds[|rounds| - 1].failedAttempts < MAX_FAILED_ATTEMPTS
    requires last == Round(lt, dt, rounds[|rounds| - 1])
    requires !(last.1 == Continue && Truthy(last.0.nextPageToken))
    ensures RunFrom(lt, dt, rounds[0]) == last
    decreases |rounds|
  {
    if |rounds| > 1 {
      ChainRun(lt, dt, rounds[1..], last);
    }
  }

  /** The try block as written: the two retried requests, and the wait after a deleted batch. */
  method TryBatch(listing: seq<Attempt<Page>>, deletes: seq<Attempt<()>>, ghost lt: seq<Retried<Page>>, ghost dt: seq<Retried<()>>,
                  listCalls: nat, deleteCalls: nat) returns (b: TryBlock)
    requires Tabulates(listing, lt) && Tabulates(deletes, dt) && Sound(lt) && Sound(dt)
    ensures b == TryRound(lt, dt, listCalls, deleteCalls)
  {
    var response, calls, delays := RetryWithBackoff(Drop(listing, listCalls));
    RetryAtTabulated(listing, lt, listCalls);
    match response {
      case Fail(e) =>
        return TryBlock(response, listCalls + calls, deleteCalls, delays, Threw(e));
      case Ok(page) =>
        var messages := PageMessages(page);
        if |messages| == 0 {
          return TryBlock(response, listCalls + calls, deleteCalls, delays, Emptied);
        }
        var deleted, deleteTries, deleteDelays := RetryWithBackoff(Drop(deletes, deleteCalls));
        RetryAtTabulated(deletes, dt, deleteCalls);
        match deleted {
          case Fail(e) =>
            return TryBlock(response, listCalls + calls, deleteCalls + deleteTries, delays + deleteDelays, Threw(e));
          case Ok(_) =>
            return TryBlock(response, listCalls + calls, deleteCalls + deleteTries, delays + deleteDelays + [BASE_DELAY],
                            Cleared(messages, page.nextPageToken));
        }
    }
  }

  /**
   * The loop as written: a do-while over the three variables of the source;
   * the catch block counts the failure and rethrows at the third, and the
   * outer catch returns the count.
   */
  method BulkDeleteFromSender(listing: seq<Attempt<Page>>, deletes: seq<Attempt<()>>)
    returns (deletedCount: nat, requests: seq<Option<string>>, listed: seq<Attempt<Page>>, outcomes: seq<Outcome>,
             waits: seq<nat>, gaveUp: bool)
    ensures var (t, x) := Run(listing, deletes);
      && deletedCount == t.deletedCount && requests == t.requests && listed == t.listed
      && outcomes == t.outcomes && waits == t.waits
      && (gaveUp <==> x == GaveUp)
  {
    ghost var lt, dt := Table(listing), Table(deletes);
    TabulatesSound(listing, lt);
    TabulatesSound(deletes, dt);
    deletedCount := 0;
    var nextPageToken: Option<string> := None;
    var failedAttempts: nat := 0;
    var listCalls, deleteCalls: nat := 0, 0;
    requests, listed, outcomes, waits := [], [], [], [];
    ghost var rounds := [Start()];
    ghost var last: (Deleter, Exit);
    while true
      invariant failedAttempts < MAX_FAILED_ATTEMPTS
      invariant rounds != [] && rounds[0] == Start() && Chain(lt, dt, rounds)
      invariant rounds[|rounds| - 1] ==
        Deleter(deletedCount, failedAttempts, nextPageToken, listCalls, deleteCalls, requests, listed, outcomes, waits)
      decreases |lt| - Min(listCalls, |lt|), MAX_FAILED_ATTEMPTS - failedAttempts
    {
      ghost var s := Deleter(deletedCount, failedAttempts, nextPageToken, listCalls, deleteCalls, requests, listed, outcomes, waits);
      requests := requests + [nextPageToken];
      var b := TryBatch(listing, deletes, lt, dt, listCalls, deleteCalls);
      assert Round(lt, dt, s) == Settle(s, b);
      listed := listed + [b.listed];
      listCalls, deleteCalls, waits := b.listCalls, b.deleteCalls, waits + b.waits;
      match b.ended {
        case Emptied =>
          gaveUp := false;
          last := Settle(s, b);
          break;
        case Cleared(ids, next) =>
          deletedCount := deletedCount + |ids|;
          failedAttempts := 0;
          nextPageToken := next;
          outcomes := outcomes + [Deleted(ids, next)];
          last := Settle(s, b);
          assert last == (Deleter(deletedCount, failedAttempts, nextPageToken, listCalls, deleteCalls, requests, listed, outcomes, waits), Continue);
        case Threw(e) =>
          failedAttempts := failedAttempts + 1;
          outcomes := outcomes + [Failed(e)];
          if failedAttempts >= MAX_FAILED_ATTEMPTS {
            gaveUp := true;
            last := Settle(s, b);
            break;
          }
          waits := waits + [2 * BASE_DELAY];
          last := Settle(s, b);
          assert last == (Deleter(deletedCount, failedAttempts, nextPageToken, listCalls, deleteCalls, requests, listed, outcomes, waits), Continue);
      }
      if !Truthy(nextPageToken) {
        gaveUp := false;
        break;
      }
      ChainSnoc(lt, dt, rounds, last.0);
      rounds := rounds + [last.0];
    }
    ChainRun(lt, dt, rounds, last);
  }

  /** Two pages of 500 messages, the second without a next token, delete 1000 messages in two rounds. */
  lemma TwoFullPages(a: seq<MessageRef>, b: seq<MessageRef>)
    requires |a| == 500 && |b| == 500
    ensures var listing := [Ok(Page(Some(a), Some("p2"))), Ok(Page(Some(b), None))];
      var (t, x) := Run(listing, [Ok(()), Ok(())]);
      && t.deletedCount == 1000 && |t.outcomes| == 2 && x == Continue
  {
    var listing := [Ok(Page(Some(a), Some("p2"))), Ok(Page(Some(b), None))];
    var deletes: seq<Attempt<()>> := [Ok(()), Ok(())];
    var lt, dt := Table(listing), Table(deletes);
    TabulatesSound(listing, lt);
    TabulatesSound(deletes, dt);
    RetryAtTabulated(listing, lt, 0);
    RetryAtTabulated(listing, lt, 1);
    RetryAtTabulated(deletes, dt, 0);
    RetryAtTabulated(deletes, dt, 1);
    assert Answer(Drop(listing, 0), 0) == listing[0];
    assert Answer(Drop(listing, 1), 0) == listing[1];
    assert Answer(Drop(deletes, 0), 0) == deletes[0];
    assert Answer(Drop(deletes, 1), 0) == deletes[1];
    var (t1, x1) := Round(lt, dt, Start());
    assert t1.deletedCount == 500 && t1.listCalls == 1 && t1.deleteCalls == 1 && x1 == Continue;
    var (t2, x2) := Round(lt, dt, t1);
    assert t2.deletedCount == 1000 && |t2.outcomes| == 2 && x2 == Continue && t2.nextPageToken == None;
    assert RunFrom(lt, dt, t1) == (t2, x2);
    assert RunFrom(lt, dt, Start()) == RunFrom(lt, dt, t1);
    assert Run(listing, deletes) == RunFrom(lt, dt, Start());
  }
}
