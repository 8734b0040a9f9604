# Gmail analysis and bulk delete, modelled in Dafny

This project models the decision logic of `AnalysisBulkDelete.js`, a batch
script against the Gmail API. The script has two modes:

- **analysis**: list every unread message, fetch each message's metadata, and
  tally per-sender statistics (count, total size, last date) into a `Map`;
  then sort the senders by count;
- **bulk delete**: for each address of a list file, delete that sender's
  unread messages page by page.

Every Gmail request is answered by a finite *script* of outcomes (`Remote.Attempt`:
a value or an error message), consumed in call order. A call made after the
script has run out fails with a non-quota error. The sleeps of the retry
wrapper, of `getAllMessages` and of the bulk-delete loop are recorded as
delays, and progress and checkpoint writes are recorded as values.

Modules, one per part of the script:

- `Remote`: the script of answers, `Page`, and JavaScript truthiness of page tokens.
- `Text`: `trim`, `includes` and `split('\n')` on `seq<char>`.
- `Backoff`: `retryWithExponentialBackoff`. It is a recursive reference
  (`RetryFrom`) that follows the source's recursion on `retryCount`, plus a
  bounded loop (`RetryWithBackoff`) proved equal to it.
- `Paginator`: the `getAllMessages` do-while loop.
- `SenderKey`: `extractEmailAddress`. It is specified against the regular
  expression `/<(.+)>/`: the leftmost match, greedy, where `.` matches no line terminator.
- `JsMap`: a JavaScript `Map` as an insertion-ordered map value.
- `Aggregator`: `processEmailsInBatches`. The `Map` it updates in place is the
  class `SenderStatsMap`, and the run records the email id each metadata call
  asks for. The module also holds the stable sort by count of
  `analyzeEmailsBySender`.
- `BulkDelete`: `bulkDeleteFromSender`. It is a state machine over
  `deletedCount`, `failedAttempts` and `nextPageToken`. A recursive reference
  (`RunFrom`) runs beside the do-while loop method, and both record their
  requests, the pages listed for them, their outcomes and their waits.
- `DeleteDriver`: the parsing of the list file and the accumulation loop of
  `bulkDeleteFromEmailList`.

Behaviours of the code that are easy to misread, which the model follows:

- After each page, the paginator pauses exactly when the running total of
  collected references is a multiple of 500 (AnalysisBulkDelete.js:68). A
  page that leaves the total at 0, such as an empty first page, pauses too;
  an empty page after 10 references does not.
- After a failed delete round, the do-while condition reads the page token,
  which the failure left unchanged. So a failure in the first round, where
  the token is still null, ends the loop instead of retrying the page
  (`BulkDelete.FirstFailureEndsRun`).
- Giving up after three failures is a `throw` that the function's own outer
  `catch` turns into returning the partial count. So `bulkDeleteFromSender`
  never throws.
- The `maxMessagesPerSender` parameter is accepted and never used.

## Model

| member | source | states |
|---|---|---|
| `Remote.Truthy` | AnalysisBulkDelete.js:73 | the defining predicate of a page token's truth in `while (nextPageToken)` (also js:260): present and not the empty string |
| `Remote.PageMessages` | AnalysisBulkDelete.js:217 | the defining function of `response.data.messages || []` (also the test at js:60): the page's messages, or none when the field is absent |
| `Backoff.IsQuotaError` | AnalysisBulkDelete.js:276-279 | the defining predicate of a quota error: the message contains "Resource has been exhausted" or "Quota exceeded" |
| `Backoff.RetryDelay` | AnalysisBulkDelete.js:282-287 | the wait before a retry lies between 2000 and 60000 ms, and is 60000 ms whenever the message contains "Quota exceeded" |
| `Backoff.DelayUncappedWithinBudget` | AnalysisBulkDelete.js:284-287 | within the 5-retry budget the 60000 ms cap is never reached: for any other quota error the k-th wait is exactly 2000·2^k |
| `Backoff.DelayMonotone` | AnalysisBulkDelete.js:284-287 | a later retry never waits less than an earlier one for the same error |
| `Backoff.RetryFrom` | AnalysisBulkDelete.js:272-295 | the defining function of the retry wrapper: it follows the source's recursion on `retryCount`, calling, then retrying a quota error after its computed delay while `retryCount` < 5; its properties are the next two rows |
| `Backoff.RetryFromResult` | AnalysisBulkDelete.js:272-294 | at most MAX_RETRIES + 1 = 6 calls; the last call's answer is returned or rethrown unchanged; a failure comes back only if it is not a quota error or the budget is spent |
| `Backoff.RetryFromWaits` | AnalysisBulkDelete.js:276-291 | every call before the last failed with a quota error, and was followed by exactly the delay computed for it and its retry count |
| `Backoff.ImmediateSuccess` | AnalysisBulkDelete.js:273-274 | a first-call success is returned after one call with no wait |
| `Backoff.NonQuotaErrorRethrown` | AnalysisBulkDelete.js:276-293 | a non-quota error is rethrown unchanged after one call with no wait |
| `Backoff.QuotaErrorsThenSuccess` | AnalysisBulkDelete.js:281-291 | k < 5 quota errors and then a success: the success is returned after k + 1 calls, and the waits are the k computed delays |
| `Backoff.QuotaErrorsExhaustBudget` | AnalysisBulkDelete.js:281-293 | quota errors on all 6 calls: the sixth error is rethrown after 5 waits |
| `Backoff.ExhaustedThenSuccessTotalWait` | AnalysisBulkDelete.js:284-291 | k "Resource has been exhausted" errors and then a success wait 2000·(2^k − 1) ms in total |
| `Backoff.TotalWaitBounded` | AnalysisBulkDelete.js:281-291 | one retried operation waits at most 5 · 60000 ms in total |
| `Backoff.RetryWithBackoff` | AnalysisBulkDelete.js:272-295 | the loop makes the same calls, returns the same answer and records the same waits as the recursive definition; 1 to 6 calls, each wait within [2000, 60000] |
| `Text.Trim` | AnalysisBulkDelete.js:193 | the defining function of `trim`: leading, then trailing ECMAScript white space and line terminators removed; the result is never longer than the input |
| `Text.Contains` | AnalysisBulkDelete.js:277-278 | the defining predicate of `includes`: the pattern occurs at some position of the string |
| `Text.TrimSpec` | AnalysisBulkDelete.js:193 | the trimmed string neither starts nor ends with white space, and is empty exactly when the input is all white space |
| `Text.TrimIsInnerSlice` | AnalysisBulkDelete.js:309 | the trimmed line is a contiguous slice of the line, with only white space cut from either end |
| `Text.TrimIdempotent` | AnalysisBulkDelete.js:309 | trimming twice gives the same result as trimming once |
| `Text.SplitLines` | AnalysisBulkDelete.js:308 | the pieces of `split('\n')` contain no '\n', and joining them with '\n' gives the content back |
| `Text.SplitJoin` | AnalysisBulkDelete.js:308 | splitting lines joined with '\n' returns those lines, when none of them contains '\n' |
| `Paginator.Collected` | AnalysisBulkDelete.js:60-61 | the defining function of what the paginator accumulates: the messages of the first n pages concatenated in page order, a page without `messages` adding none |
| `Paginator.GetAllMessages` | AnalysisBulkDelete.js:42-85 | first request without a token, each later one with the previous page's token; success returns every page's messages in order, after the first page without a truthy next token; a failure rethrows the error and saves progress exactly when something was collected; a pause after each page whose running total is a multiple of 500, zero included |
| `Paginator.CollectedPrefix` | AnalysisBulkDelete.js:60-61 | what is collected after m pages is a prefix of what is collected after more pages |
| `Paginator.PageBlock` | AnalysisBulkDelete.js:44-73 | each page's messages form one contiguous block of the result, placed in page order |
| `Paginator.CollectedLength` | AnalysisBulkDelete.js:60-62 | the number of messages collected is the sum of the page sizes; pages without messages count 0 |
| `Paginator.ThreePages` | AnalysisBulkDelete.js:49-73 | pages of 500, 500 and 10 messages chained by tokens give their 1010 references in order |
| `SenderKey.ExtractEmailAddress` | AnalysisBulkDelete.js:191-194 | the defining function of `extractEmailAddress`: the capture group of the match found, else the trimmed input; its specification is `ExtractEmailAddressSpec` |
| `SenderKey.MatchEndSpec` | AnalysisBulkDelete.js:192 | from a '<', the match end found is the last '>' on the same line at least two positions later; with no such '>', no match starts there |
| `SenderKey.FindMatchSpec` | AnalysisBulkDelete.js:192 | the search finds the leftmost start of a match and the longest match from it; with no result, nothing matches |
| `SenderKey.ExtractEmailAddressSpec` | AnalysisBulkDelete.js:191-194 | without a `<…>` match the key is the trimmed input; with one, it is the text strictly between the reported (leftmost, greedy) '<' and '>' |
| `SenderKey.ReportedMatchUnique` | AnalysisBulkDelete.js:192 | the leftmost-longest match is unique |
| `SenderKey.KeyOfMatch` | AnalysisBulkDelete.js:192-193 | the key of a header with a reported match is its capture group |
| `SenderKey.KeyWithoutMatch` | AnalysisBulkDelete.js:193 | the key of a header without a match is the header trimmed |
| `SenderKey.DisplayNameAddress` | AnalysisBulkDelete.js:191-194 | `Alice <a@x.com>` is keyed `a@x.com` |
| `SenderKey.BareAddress` | AnalysisBulkDelete.js:191-194 | `a@x.com` is keyed `a@x.com` |
| `SenderKey.GreedyCapture` | AnalysisBulkDelete.js:192 | `<a> <b>` is keyed `a> <b`: the capture runs from the first '<' to the last '>' |
| `SenderKey.EmptyBrackets` | AnalysisBulkDelete.js:192-193 | ` <> ` does not match (`.+` needs a character) and is keyed `<>` |
| `SenderKey.BracketsAcrossLines` | AnalysisBulkDelete.js:192-193 | a line break between the brackets prevents the match |
| `JsMap.Empty` | AnalysisBulkDelete.js:157 | `new Map()` is a well-formed map with no keys |
| `JsMap.Set` | AnalysisBulkDelete.js:110-118 | the defining function of `Map.prototype.set` on an insertion-ordered map: an existing key keeps its place, a new key goes last; its properties are the next rows |
| `JsMap.SetSpec` | AnalysisBulkDelete.js:110-116 | `set` keeps the map well formed; the key maps to the new value and every other key keeps its value; existing keys keep their order, and a new key is appended at the end |
| `JsMap.SetTwice` | AnalysisBulkDelete.js:321 | setting a key twice is the same as setting it once to the second value |
| `JsMap.ValidKeysDistinct` | AnalysisBulkDelete.js:140 | a well-formed map lists each key once |
| `JsMap.Entries` | AnalysisBulkDelete.js:161 | `Array.from(map.entries())` gives each key with its value, in insertion order |
| `Aggregator.FindHeader` | AnalysisBulkDelete.js:106 | the defining function of `headers.find(h => h.name === name)`, as the value of the header found |
| `Aggregator.FindHeaderSpec` | AnalysisBulkDelete.js:106 | `headers.find` returns the value of the first header with the name, and nothing when no header has that name |
| `Aggregator.Sender` | AnalysisBulkDelete.js:106-108 | the defining function of a message's key: the extracted address of the From header, 'Unknown' when there is none |
| `Aggregator.SenderOfMessage` | AnalysisBulkDelete.js:106-108 | a message's key is the extracted address of its From header, or of 'Unknown' when it has none |
| `Aggregator.Size` | AnalysisBulkDelete.js:120 | the defining function of `message.data.sizeEstimate || 0` |
| `Aggregator.Date` | AnalysisBulkDelete.js:121 | the defining function of the Date header's value, absent when the message has none |
| `Aggregator.Record` | AnalysisBulkDelete.js:110-121 | the defining function of tallying one message into the statistics map |
| `Aggregator.RecordAll` | AnalysisBulkDelete.js:95-121 | the defining function of tallying messages one after the other, in order |
| `Aggregator.RecordStep` | AnalysisBulkDelete.js:110-121 | tallying one message changes only its sender's entry: an unseen sender starts at {0, 0, null}, then its count grows by 1, its size by `sizeEstimate` or 0, and its last date becomes the Date header |
| `Aggregator.RecordAllCount` | AnalysisBulkDelete.js:110-119 | after tallying messages, a sender is present exactly when it was present before or sent one of them, and its count grew by its number of messages |
| `Aggregator.RecordAllSize` | AnalysisBulkDelete.js:120 | a sender's total size grew by the sizes of its messages, a missing size counting 0 |
| `Aggregator.RecordAllLastEmail` | AnalysisBulkDelete.js:121 | a sender's last date is the Date header of its last message, including when that header is absent |
| `Aggregator.RecordAllKeys` | AnalysisBulkDelete.js:110-116 | tallying never drops or reorders senders; every new sender sent one of the messages |
| `Aggregator.RecordAllValid` | AnalysisBulkDelete.js:110-118 | tallying keeps the map well formed |
| `Aggregator.SameSenderCountedTogether` | AnalysisBulkDelete.js:106-121 | two messages with the same key make one entry with count 2, the summed sizes and the second date |
| `Aggregator.Fetch` | AnalysisBulkDelete.js:96-131 | the defining function of one email's retried metadata fetch, starting at a given call |
| `Aggregator.FetchFrom` | AnalysisBulkDelete.js:96-131 | an email takes 1 to 3 metadata calls; the answer used is that of the last one; a failure comes back only after the third |
| `Aggregator.FetchEarlierAttemptsFailed` | AnalysisBulkDelete.js:97-130 | every attempt before the one whose answer is used failed |
| `Aggregator.Step` | AnalysisBulkDelete.js:95-132 | the defining function of one email of the run: nothing after an error; otherwise its fetch, each call asking for its id, then the tally or the error |
| `Aggregator.Process` | AnalysisBulkDelete.js:91-133 | the defining function of the run over the first n emails, one `Step` per email in list order |
| `Aggregator.ProcessLength` | AnalysisBulkDelete.js:91-133 | without an error every email is fetched; with one, some email f failed three times after the f emails before it were fetched, and the emails from it on are not fetched |
| `Aggregator.ProcessStopsAtFailure` | AnalysisBulkDelete.js:126-128 | once an email fails three times nothing more happens: the error ends the run |
| `Aggregator.ProcessCalls` | AnalysisBulkDelete.js:95-101 | n emails take at most 3n metadata calls, at least one per fetched record, and each call asks for exactly one id |
| `Aggregator.ProcessExtends` | AnalysisBulkDelete.js:91-133 | processing more emails only extends the run: the fetched records and the ids asked for grow as prefixes, the call count grows, and an error once met stays |
| `Aggregator.AskedInOrder` | AnalysisBulkDelete.js:91-131 | each email id is visited once, in order: the calls ask for email 0's id one to three times, then email 1's, and so on; an email after the one that stopped the run makes no call; call j asks for email k's id exactly when it falls between the call counts before and after email k; the run has made as many calls as it asked ids |
| `Aggregator.ProcessTallies` | AnalysisBulkDelete.js:95-133 | the statistics map is the fetched metadata tallied in order |
| `Aggregator.SenderStatsMap.constructor` | AnalysisBulkDelete.js:157 | a new map is empty |
| `Aggregator.SenderStatsMap.Tally` | AnalysisBulkDelete.js:110-121 | the map after tallying one message is `Record` of the old map and the message |
| `Aggregator.FetchAndTally` | AnalysisBulkDelete.js:96-131 | the retry loop for one email makes the calls of `Fetch`, each asking for the email's id, and tallies the answer into the map when it succeeded |
| `Aggregator.ProcessEmail` | AnalysisBulkDelete.js:95-132 | one email moves the run one step: the map, the error, the calls and the ids asked for are those of `Step` for that email's id |
| `Aggregator.ProcessBatch` | AnalysisBulkDelete.js:92-133 | a batch processes its emails in order, each email's calls asking for its own id: the map, the error and the ids asked for are those of the run after the batch's last email, so it stops at the first email that fails three times |
| `Aggregator.ProcessEmailsInBatches` | AnalysisBulkDelete.js:87-146 | the map and the ids asked for end as the run over all emails leaves them; an error is rethrown exactly when an email failed three times; one snapshot of the map's entries is saved each time the processed count reaches a multiple of 1000 |
| `Aggregator.SortByCount` | AnalysisBulkDelete.js:161-162 | the defining function of the sort by count, largest first: a stable insertion of each entry in turn; its properties are the rows below |
| `Aggregator.InsertByCount` | AnalysisBulkDelete.js:161-162 | inserting an entry adds exactly that entry |
| `Aggregator.SortByCountPermutes` | AnalysisBulkDelete.js:161-162 | the sorted stats are a permutation of the map's entries |
| `Aggregator.SortByCountOrders` | AnalysisBulkDelete.js:162 | the sorted stats have non-increasing counts |
| `Aggregator.SortByCountStable` | AnalysisBulkDelete.js:161-162 | entries with equal counts keep their insertion order |
| `BulkDelete.Caught` | AnalysisBulkDelete.js:249-258 | a failure increments `failedAttempts`, and gives up exactly when that reaches 3 |
| `BulkDelete.TryRound` | AnalysisBulkDelete.js:205-247 | every try block makes at least one listing call and keeps the listing's answer; it breaks exactly when that answer is a page without messages; it deletes a batch exactly when the page has messages and the batch delete succeeds, and the batch is that page's ids with its next token; it throws the listing's error, or the delete's after a non-empty page, and always once the listing script is used up |
| `BulkDelete.Removed` | AnalysisBulkDelete.js:238-244 | the defining function of the bookkeeping after a deleted batch: count grown by the batch size, failures reset, the listing's next token taken |
| `BulkDelete.Settle` | AnalysisBulkDelete.js:238-258 | a round continues only with fewer than 3 failures; an error adds one failure |
| `BulkDelete.Round` | AnalysisBulkDelete.js:204-260 | a round consumes at least one listing call; it continues only with fewer than 3 failures |
| `BulkDelete.RetryWaitsBounded` | AnalysisBulkDelete.js:282-290 | every wait of the retry wrapper lies within [2000, 60000] ms |
| `BulkDelete.RoundAccounted` | AnalysisBulkDelete.js:204-260 | a round keeps the loop's accounting: the count, the failure streak, the tokens and the bounded waits |
| `BulkDelete.RunFromAccounted` | AnalysisBulkDelete.js:204-264 | the loop ends accounted: it leaves at an empty page (the last request listed a page without messages and has no outcome), after 3 failures, or once the token is falsy |
| `BulkDelete.RoundListing` | AnalysisBulkDelete.js:204-260 | a round logs its request and the page listed for it; it leaves at an empty page exactly when that page has no messages, and then changes no count or outcome; otherwise it adds one outcome, explained by that page, which is a deleted batch exactly when the page had messages and the batch delete succeeded |
| `BulkDelete.RunFrom` | AnalysisBulkDelete.js:204-260 | the defining function of the do-while loop: rounds until an empty page, three failures in a row, or a falsy token |
| `BulkDelete.RunAccounted` | AnalysisBulkDelete.js:196-269 | the result is the total of the successfully deleted batches; it gives up exactly when the last three rounds failed, and never has three failures in a row before that; the first request has no token; a failure requests the same page again; a success moves to the page the listing named; each deleted batch is the ids of the non-empty page listed for its request; the loop leaves without an outcome for its last request exactly when that request listed an empty page |
| `BulkDelete.Run` | AnalysisBulkDelete.js:196-269 | the defining function of one sender's bulk delete: `RunFrom` from the initial state on the two scripts' retry tables |
| `BulkDelete.FirstFailureEndsRun` | AnalysisBulkDelete.js:249-260 | a failure in the first round ends the loop at once with count 0, because the token is still null |
| `BulkDelete.OnlySuccessMovesOn` | AnalysisBulkDelete.js:244-260 | a second request is made only after a first round that deleted a batch |
| `BulkDelete.FailureRetriesSamePage` | AnalysisBulkDelete.js:249-260 | after a failed round the next request carries the same token |
| `BulkDelete.TryBatch` | AnalysisBulkDelete.js:205-247 | the try block as written makes the calls, waits and outcome of `TryRound` |
| `BulkDelete.BulkDeleteFromSender` | AnalysisBulkDelete.js:196-270 | the do-while loop returns the count, requests, listed pages, outcomes and waits of `Run`, and reports giving up exactly when `Run` gives up |
| `BulkDelete.TwoFullPages` | AnalysisBulkDelete.js:204-264 | two pages of 500, the second without a next token, delete 1000 messages in two rounds |
| `DeleteDriver.Entries` | AnalysisBulkDelete.js:306-315 | the defining function of the addresses processed: the parsed lines when the list is a file's content, otherwise the given array |
| `DeleteDriver.Targets` | AnalysisBulkDelete.js:308-310 | every target is trimmed, non-empty, and does not start with '#' |
| `DeleteDriver.ParseTargetList` | AnalysisBulkDelete.js:307-310 | the parsed list contains only trimmed, non-empty, non-comment lines |
| `DeleteDriver.TargetsAppend` | AnalysisBulkDelete.js:308-310 | the filter keeps file order |
| `DeleteDriver.TargetsMember` | AnalysisBulkDelete.js:308-310 | a string is a target exactly when some line, trimmed, equals it and it is neither empty nor a comment |
| `DeleteDriver.ParseJoinedLines` | AnalysisBulkDelete.js:307-310 | a file written as lines is read back as exactly the targets among those lines |
| `DeleteDriver.Counts` | AnalysisBulkDelete.js:319 | the defining function of the per-address results: each entry's count is what the bulk delete of that sender returns on its own answers; there is one count per entry |
| `DeleteDriver.Total` | AnalysisBulkDelete.js:315-320 | the defining function of `totalDeleted`: the sum of the per-address counts, empty entries skipped |
| `DeleteDriver.Stats` | AnalysisBulkDelete.js:315-321 | the defining function of `deleteStats`: one `set` per processed address, in list order |
| `DeleteDriver.Saves` | AnalysisBulkDelete.js:323-329 | the defining function of the progress records: one per processed address, holding the running total and map |
| `DeleteDriver.StatsKeys` | AnalysisBulkDelete.js:303-321 | `deleteStats` is well formed and lists each processed address once, in order of first appearance |
| `DeleteDriver.StatsLastWins` | AnalysisBulkDelete.js:321 | each address maps to the count of its last occurrence |
| `DeleteDriver.TotalWithoutRepeats` | AnalysisBulkDelete.js:320-321 | without repeated addresses, `totalDeleted` equals the sum of the map's counts |
| `DeleteDriver.RepeatedSender` | AnalysisBulkDelete.js:320-321 | an address listed twice adds both counts to the total, but the map keeps one entry holding the second count |
| `DeleteDriver.SavesSpec` | AnalysisBulkDelete.js:323-329 | one progress record per processed address; recorded totals never decrease; the last record holds the final total and map |
| `DeleteDriver.BulkDeleteFromEmailList` | AnalysisBulkDelete.js:297-359 | the loop returns the total of the per-address counts, the map and the progress records, each address running the bulk delete on its own answers; `maxMessagesPerSender` has no effect |

## Left out

- Authentication and client construction (`getGmailClient`, AnalysisBulkDelete.js:32-40): these are calls into external libraries.
- The Gmail requests themselves: each one is an answer taken from a script, and network behaviour is not modelled.
- Sleeping: the recorded delays are values, never timed. Three sleeps are not recorded: the 2-second wait between metadata attempts, the 1-second pause between analysis batches, and the 2-second wait between senders in `bulkDeleteFromEmailList` (AnalysisBulkDelete.js:332).
- File I/O and JSON serialisation: `saveProgressToFile` calls are recorded as values (saved references, checkpoints, progress records). The list file's read becomes its content as a string.
- The CSV report rows, including the megabyte column computed in floating point (AnalysisBulkDelete.js:171), and the clock-dependent timestamps and file names.
- Console logging, and the `resultSizeEstimate` field, which is only logged.
- CLI parsing and `main` (AnalysisBulkDelete.js:361-388).
- A missing `payload` in a metadata response: the source would throw a TypeError, which its retry loop catches. In the model this is a failed answer of the script.
- `Aggregator.SortByCount`: the engine's sort algorithm is not modelled. It is modelled as a stable insertion sort, because the comparator `b.count − a.count` together with a stable `Array.prototype.sort` determines the result.
- `Text.Trim`: the trimmable set is ECMAScript's WhiteSpace and LineTerminator characters. Unicode category Zs is written out as a fixed list of characters.
