/**
 * `getAllMessages` (AnalysisBulkDelete.js:42-85): fetches every page of the
 * unread-message listing, following the page token, and concatenates the
 * pages' message references. Its requests are not guarded by the backoff
 * controller.
 */
module Paginator {
  import opened Remote

  /** The running length at which the paginator takes its proactive pause. */
  const PAUSE_EVERY: nat := 500

  /** The messages of the first `n` answers of a script, in order (failed answers contribute nothing). */
  function Collected(script: seq<Attempt<Page>>, n: nat): seq<MessageRef> {
    if n == 0 then []
    else
      var a := Answer(script, n - 1);
      Collected(script, n - 1) + (if a.Ok? then PageMessages(a.value) else [])
  }

  /** The pages fetched so far are a prefix of what is fetched later. */
  lemma {:induction false} CollectedPrefix(script: seq<Attempt<Page>>, m: nat, n: nat)
    requires m <= n
    ensures Collected(script, m) <= Collected(script, n)
    decreases n - m
  {
    if m < n {
      CollectedPrefix(script, m, n - 1);
    }
  }

  /**
   * Every page's messages sit as one contiguous block of the result, in page
   * order: page j's messages start where the first j pages' end.
   */
  lemma PageBlock(script: seq<Attempt<Page>>, j: nat, n: nat)
    requires j < n && Answer(script, j).Ok?
    ensures var lo, hi := |Collected(script, j)|, |Collected(script, j + 1)|;
      && lo <= hi <= |Collected(script, n)|
      && Collected(script, n)[lo..hi] == PageMessages(Answer(script, j).value)
  {
    CollectedPrefix(script, j + 1, n);
  }

  /** The number of messages collected is the sum of the page sizes. */
  function PageSizes(script: seq<Attempt<Page>>, n: nat): nat {
    if n == 0 then 0
    else
      var a := Answer(script, n - 1);
      PageSizes(script, n - 1) + (if a.Ok? then |PageMessages(a.value)| else 0)
  }

  lemma {:induction false} CollectedLength(script: seq<Attempt<Page>>, n: nat)
    ensures |Collected(script, n)| == PageSizes(script, n)
  {
    if n > 0 {
      CollectedLength(script, n - 1);
    }
  }

  /**
   * The paginator loop. `requests` are the page tokens sent, one per listing
   * call; `pauses[j]` says whether the proactive pause followed page j;
   * `saved` is what the failure checkpoint writes.
   */
  method GetAllMessages(script: seq<Attempt<Page>>)
    returns (result: Attempt<seq<MessageRef>>, requests: seq<Option<string>>, pauses: seq<bool>, saved: Option<seq<MessageRef>>)
    ensures 1 <= |requests| && requests[0] == None
    // every page before the last one was fetched and named the next page
    ensures forall j :: 0 <= j < |requests| - 1 ==>
      && Answer(script, j).Ok?
      && Truthy(Answer(script, j).value.nextPageToken)
      && requests[j + 1] == Answer(script, j).value.nextPageToken
    // success: the last page has no next token and the result is every page's messages in order
    ensures result.Ok? <==> Answer(script, |requests| - 1).Ok?
    ensures result.Ok? ==>
      && !Truthy(Answer(script, |requests| - 1).value.nextPageToken)
      && result.value == Collected(script, |requests|)
      && saved == None
    // failure: the error is rethrown unchanged, and the progress is saved only when non-empty
    ensures result.Fail? ==>
      && Answer(script, |requests| - 1) == Fail(result.message)
      && saved == (if Collected(script, |requests| - 1) == [] then None else Some(Collected(script, |requests| - 1)))
    // a pause after every fetched page whose running total is a multiple of PAUSE_EVERY, zero included
    ensures |pauses| == (if result.Ok? then |requests| else |requests| - 1)
    ensures forall j :: 0 <= j < |pauses| ==> pauses[j] == (|Collected(script, j + 1)| % PAUSE_EVERY == 0)
  {
    var messages: seq<MessageRef> := [];
    var nextPageToken: Option<string> := None;
    requests, pauses := [], [];
    while true
      invariant |requests| <= |script| && |pauses| == |requests|
      invariant messages == Collected(script, |requests|)
      invariant requests != [] ==> Truthy(nextPageToken)
      invariant requests == [] ==> nextPageToken == None
      invariant requests != [] ==> requests[0] == None
      invariant forall j :: 0 <= j < |requests| ==>
        && Answer(script, j).Ok?
        && Truthy(Answer(script, j).value.nextPageToken)
        && (if j + 1 < |requests| then requests[j + 1] else nextPageToken) == Answer(script, j).value.nextPageToken
      invariant forall j :: 0 <= j < |pauses| ==> pauses[j] == (|Collected(script, j + 1)| % PAUSE_EVERY == 0)
      decreases |script| - |requests|
    {
      var k := |requests|;
      requests := requests + [nextPageToken];
      var response := Answer(script, k);
      match response {
        case Fail(error) =>
          result := Fail(error);
          saved := if |messages| > 0 then Some(messages) else None;
          return;
        case Ok(page) =>
          if page.messages.Some? {
            messages := messages + page.messages.value;
          }
          nextPageToken := page.nextPageToken;
          pauses := pauses + [|messages| % PAUSE_EVERY == 0];
          if !Truthy(nextPageToken) {
            result, saved := Ok(messages), None;
            return;
          }
      }
    }
  }

  /** Pages of 500, 500 and 10 messages, chained by tokens, give 1010 references. */
  lemma ThreePages(a: seq<MessageRef>, b: seq<MessageRef>, c: seq<MessageRef>)
    requires |a| == 500 && |b| == 500 && |c| == 10
    ensures var script := [Ok(Page(Some(a), Some("p2"))), Ok(Page(Some(b), Some("p3"))), Ok(Page(Some(c), None))];
      && Collected(script, 3) == a + b + c
      && |Collected(script, 3)| == 1010
  {
    var script := [Ok(Page(Some(a), Some("p2"))), Ok(Page(Some(b), Some("p3"))), Ok(Page(Some(c), None))];
    assert Collected(script, 1) == [] + a;
    assert Collected(script, 2) == a + b;
  }
}
