/**
 * The remote mailbox service, seen from the batch script.
 *
 * Every remote request (a listing page, a metadata fetch, a batch delete) is
 * answered by an entry of a finite script, consumed in call order. A call made
 * after the script has run out is answered by a non-quota failure, so that
 * every loop of the script stays bounded; such an answer is never a quota
 * error and is therefore never retried by the backoff controller.
 */
module Remote {

  datatype Option<+T> = None | Some(value: T) {
    function GetOr(default: T): T {
      match this
      case Some(v) => v
      case None => default
    }
  }

  /** The outcome of one remote call: the resolved value, or the error thrown, given by its message. */
  datatype Attempt<+T> = Ok(value: T) | Fail(message: string)

  /** The message of the failure that answers a call past the end of a script. */
  const SCRIPT_END: string := "no answer"

  /** A message reference as returned by a listing: only its id is used. */
  type MessageRef = string

  /** A response of the messages.list request. */
  datatype Page = Page(messages: Option<seq<MessageRef>>, nextPageToken: Option<string>)

  /** The answer to the k-th call (counting from 0) under a script. */
  function Answer<T>(script: seq<Attempt<T>>, k: nat): (a: Attempt<T>)
    ensures a.Ok? ==> k < |script|
    ensures k < |script| ==> a == script[k]
  {
    if k < |script| then script[k] else Fail(SCRIPT_END)
  }

  /** The part of a script still to be consumed after `k` calls. */
  function Drop<T>(script: seq<Attempt<T>>, k: nat): (rest: seq<Attempt<T>>)
    ensures forall j: nat :: Answer(rest, j) == Answer(script, k + j)
  {
    if k <= |script| then script[k..] else []
  }

  /** JavaScript truthiness of a page token: null, undefined and "" are all falsy. */
  predicate Truthy(token: Option<string>) {
    token.Some? && token.value != ""
  }

  /** `response.data.messages || []`: a page without a messages field contributes nothing. */
  function PageMessages(p: Page): seq<MessageRef> {
    p.messages.GetOr([])
  }
}
