/**
 * The analysis side: `processEmailsInBatches` (AnalysisBulkDelete.js:87-146)
 * tallies per-sender statistics into a `Map` it updates in place, and
 * `analyzeEmailsBySender` (AnalysisBulkDelete.js:148-184) sorts them by count.
 */
module Aggregator {
  import opened Remote
  import opened SenderKey
  import opened JsMap

  const BATCH_SIZE: nat := 100
  const METADATA_ATTEMPTS: nat := 3
  const SAVE_EVERY: nat := 1000

  datatype Header = Header(name: string, value: string)

  /** The metadata response of one message: its headers and its optional size estimate. */
  datatype Metadata = Metadata(headers: seq<Header>, sizeEstimate: Option<nat>)

  /** Per-sender statistics; `lastEmail` is the Date header of the last message seen, or null/undefined. */
  datatype Stats = Stats(count: nat, totalSize: nat, lastEmail: Option<string>)

  const UNSEEN: Stats := Stats(0, 0, None)

  type Table = OrderedMap<string, Stats>
  type Entry = (string, Stats)

  /** Index i holds the first header with that name. */
  predicate FirstHeaderAt(headers: seq<Header>, name: string, i: int) {
    0 <= i < |headers| && headers[i].name == name && forall k :: 0 <= k < i ==> headers[k].name != name
  }

  /** `headers.find(h => h.name === name)?.value`. */
  function FindHeader(headers: seq<Header>, name: string): Option<string> {
    if headers == [] then None
    else if headers[0].name == name then Some(headers[0].value)
    else FindHeader(headers[1..], name)
  }

  /** The value found is that of the first header with the name; nothing is found when no header has it. */
  lemma {:induction false} FindHeaderSpec(headers: seq<Header>, name: string)
    ensures var v := FindHeader(headers, name);
      && (v.None? ==> forall h <- headers :: h.name != name)
      && (v.Some? ==> exists i :: FirstHeaderAt(headers, name, i) && headers[i].value == v.value)
  {
    if headers != [] && headers[0].name != name {
      FindHeaderSpec(headers[1..], name);
      var v := FindHeader(headers[1..], name);
      if v.Some? {
        var i :| FirstHeaderAt(headers[1..], name, i) && headers[1..][i].value == v.value;
        assert FirstHeaderAt(headers, name, i + 1);
      } else {
        assert forall h <- headers :: h == headers[0] || h in headers[1..];
      }
    } else if headers != [] {
      assert FirstHeaderAt(headers, name, 0);
    }
  }

  /**
   * The key a message is counted under: the address extracted from its From
   * header, or 'Unknown' without one (`SenderOfMessage` shows this is the
   * extraction applied to the header value or to 'Unknown').
   */
  function Sender(m: Metadata): string {
    match FindHeader(m.headers, "From")
    case Some(from) => ExtractEmailAddress(from)
    case None => "Unknown"
  }

  /** The key is `extractEmailAddress(fromHeader ? fromHeader.value : 'Unknown')`. */
  lemma SenderOfMessage(m: Metadata)
    ensures Sender(m) == ExtractEmailAddress(FindHeader(m.headers, "From").GetOr("Unknown"))
  {
    if FindHeader(m.headers, "From").None? {
      var unknown := "Unknown";
      assert forall k :: 0 <= k < |unknown| ==> unknown[k] != '<';
      assert forall i, j :: !IsMatchAt(unknown, i, j);
      KeyWithoutMatch(unknown);
      TrimKeeps(unknown);
    }
  }

  /** `sizeEstimate || 0`. */
  function Size(m: Metadata): nat {
    m.sizeEstimate.GetOr(0)
  }

  /** The message's Date header, if any. */
  function Date(m: Metadata): Option<string> {
    FindHeader(m.headers, "Date")
  }

  /** What counting one message of `size` bytes dated `date` under `sender` does to the table. */
  function Tallied(t: Table, sender: string, size: nat, date: Option<string>): Table {
    var s := if sender in t.values then t.values[sender] else UNSEEN;
    Set(t, sender, Stats(s.count + 1, s.totalSize + size, date))
  }

  /** Counting a message keeps the table well formed. */
  lemma TalliedValid(t: Table, sender: string, size: nat, date: Option<string>)
    requires t.Valid()
    ensures Tallied(t, sender, size, date).Valid()
  {
    var s := if sender in t.values then t.values[sender] else UNSEEN;
    SetSpec(t, sender, Stats(s.count + 1, s.totalSize + size, date));
  }

  /** What tallying one message does to the statistics table. */
  function Record(t: Table, m: Metadata): Table {
    Tallied(t, Sender(m), Size(m), Date(m))
  }

  /** Tallying messages one after the other. */
  function RecordAll(t: Table, ms: seq<Metadata>): Table {
    if ms == [] then t else Record(RecordAll(t, ms[..|ms| - 1]), ms[|ms| - 1])
  }

  /** How many of the messages are counted under `sender`. */
  function CountFrom(ms: seq<Metadata>, sender: string): nat {
    if ms == [] then 0
    else CountFrom(ms[..|ms| - 1], sender) + (if Sender(ms[|ms| - 1]) == sender then 1 else 0)
  }

  /** The total size of the messages counted under `sender`. */
  function SizeFrom(ms: seq<Metadata>, sender: string): nat {
    if ms == [] then 0
    else SizeFrom(ms[..|ms| - 1], sender) + (if Sender(ms[|ms| - 1]) == sender then Size(ms[|ms| - 1]) else 0)
  }

  /** The Date header of the last message counted under `sender`; None when there is none. */
  function LastDateFrom(ms: seq<Metadata>, sender: string): Option<Option<string>> {
    if ms == [] then None
    else if Sender(ms[|ms| - 1]) == sender then Some(Date(ms[|ms| - 1]))
    else LastDateFrom(ms[..|ms| - 1], sender)
  }

  /**
   * After tallying, a sender is present exactly when it was before or sent
   * one of the messages, and its count is its earlier count plus the number
   * of its messages.
   */
  lemma {:induction false} RecordAllCount(t: Table, ms: seq<Metadata>, sender: string)
    ensures var r := RecordAll(t, ms);
      var base := if sender in t.values then t.values[sender] else UNSEEN;
      && (sender in r.values <==> sender in t.values || CountFrom(ms, sender) > 0)
      && (sender in r.values ==> r.values[sender].count == base.count + CountFrom(ms, sender))
  {
    if ms != [] {
      var ms', m := ms[..|ms| - 1], ms[|ms| - 1];
      RecordAllCount(t, ms', sender);
      RecordStep(RecordAll(t, ms'), m, sender);
    }
  }

  /** A sender's total size grows by the sizes of its messages (a missing size counting 0). */
  lemma {:induction false} RecordAllSize(t: Table, ms: seq<Metadata>, sender: string)
    ensures var r := RecordAll(t, ms);
      var base := if sender in t.values then t.values[sender] else UNSEEN;
      sender in r.values ==> r.values[sender].totalSize == base.totalSize + SizeFrom(ms, sender)
  {
    if ms != [] {
      var ms', m := ms[..|ms| - 1], ms[|ms| - 1];
      RecordAllSize(t, ms', sender);
      RecordAllCount(t, ms', sender);
      NoMessagesFrom(ms', sender);
      RecordStep(RecordAll(t, ms'), m, sender);
    }
  }

  /** A sender's last date is the Date header of its last message, or unchanged when it sent none. */
  lemma {:induction false} RecordAllLastEmail(t: Table, ms: seq<Metadata>, sender: string)
    ensures var r := RecordAll(t, ms);
      var base := if sender in t.values then t.values[sender] else UNSEEN;
      sender in r.values ==> r.values[sender].lastEmail == LastDateFrom(ms, sender).GetOr(base.lastEmail)
  {
    if ms != [] {
      var ms', m := ms[..|ms| - 1], ms[|ms| - 1];
      RecordAllLastEmail(t, ms', sender);
      RecordAllCount(t, ms', sender);
      NoMessagesFrom(ms', sender);
      RecordStep(RecordAll(t, ms'), m, sender);
    }
  }

  lemma {:induction false} NoMessagesFrom(ms: seq<Metadata>, sender: string)
    ensures CountFrom(ms, sender) == 0 ==> SizeFrom(ms, sender) == 0 && LastDateFrom(ms, sender) == None
  {
    if ms != [] {
      NoMessagesFrom(ms[..|ms| - 1], sender);
    }
  }

  /** Tallying one message changes only its sender's entry. */
  lemma RecordStep(t: Table, m: Metadata, sender: string)
    ensures var r := Record(t, m);
      var base := if sender in t.values then t.values[sender] else UNSEEN;
      && (sender in r.values <==> sender in t.values || Sender(m) == sender)
      && (sender in r.values ==>
            r.values[sender] == if Sender(m) == sender then Stats(base.count + 1, base.totalSize + Size(m), Date(m)) else base)
  {
  }

  /** Tallying never reorders or drops senders: the old keys stay a prefix, and each new key sent a message. */
  lemma {:induction false} RecordAllKeys(t: Table, ms: seq<Metadata>)
    ensures t.keys <= RecordAll(t, ms).keys
    ensures forall k <- RecordAll(t, ms).keys :: k in t.keys || CountFrom(ms, k) > 0
  {
    if ms != [] {
      var ms' := ms[..|ms| - 1];
      RecordAllKeys(t, ms');
      forall k <- RecordAll(t, ms).keys ensures k in t.keys || CountFrom(ms, k) > 0 {
        if k in RecordAll(t, ms').keys {
          assert CountFrom(ms, k) >= CountFrom(ms', k);
        }
      }
    }
  }

  /** Tallying keeps the table well formed: each sender is listed once, and every listed sender has statistics. */
  lemma {:induction false} RecordAllValid(t: Table, ms: seq<Metadata>)
    requires t.Valid()
    ensures RecordAll(t, ms).Valid()
  {
    if ms != [] {
      var r := RecordAll(t, ms[..|ms| - 1]);
      RecordAllValid(t, ms[..|ms| - 1]);
      var m := ms[|ms| - 1];
      var sender := Sender(m);
      SetSpec(r, sender, Stats((if sender in r.values then r.values[sender] else UNSEEN).count + 1,
                               (if sender in r.values then r.values[sender] else UNSEEN).totalSize + Size(m), Date(m)));
    }
  }

  /**
   * Two messages with the same key, e.g. `Alice <a@x.com>` and `a@x.com`
   * (`DisplayNameAddress`, `BareAddress`), make one entry counting both.
   */
  lemma SameSenderCountedTogether(m1: Metadata, m2: Metadata)
    requires Sender(m1) == Sender(m2)
    ensures var r, k := RecordAll(Empty(), [m1, m2]), Sender(m1);
      && r.keys == [k] && k in r.values
      && r.values[k] == Stats(2, Size(m1) + Size(m2), Date(m2))
  {
    assert [m1, m2][..1] == [m1];
    assert RecordAll(Empty(), [m1]) == Record(Empty(), m1);
  }

  /** One metadata fetch: the answer used and the number of `messages.get` calls it took. */
  datatype Fetched = Fetched(answer: Attempt<Metadata>, tries: nat)

  /**
   * The per-message retry of an email whose first attempt was call `first`,
   * now making call `pos`: the first successful answer is used; the failure
   * of the third attempt is rethrown, earlier failures are only waited out.
   */
  function FetchFrom(script: seq<Attempt<Metadata>>, first: nat, pos: nat): (f: Fetched)
    requires first <= pos < first + METADATA_ATTEMPTS
    ensures pos - first < f.tries <= METADATA_ATTEMPTS
    ensures f.answer == Answer(script, first + f.tries - 1)
    ensures f.answer.Fail? ==> f.tries == METADATA_ATTEMPTS
    decreases first + METADATA_ATTEMPTS - pos
  {
    match Answer(script, pos)
    case Ok(m) => Fetched(Ok(m), pos - first + 1)
    case Fail(e) =>
      if pos + 1 == first + METADATA_ATTEMPTS then Fetched(Fail(e), METADATA_ATTEMPTS)
      else FetchFrom(script, first, pos + 1)
  }

  /** The fetch of an email whose first attempt is call `pos`. */
  function Fetch(script: seq<Attempt<Metadata>>, pos: nat): Fetched {
    FetchFrom(script, pos, pos)
  }

  /** Every attempt before the one whose answer is used failed, so an email is fetched at its first successful call. */
  lemma {:induction false} FetchEarlierAttemptsFailed(script: seq<Attempt<Metadata>>, first: nat, pos: nat)
    requires first <= pos < first + METADATA_ATTEMPTS
    requires forall k :: first <= k < pos ==> Answer(script, k).Fail?
    ensures var f := FetchFrom(script, first, pos);
      forall k :: first <= k < first + f.tries - 1 ==> Answer(script, k).Fail?
    decreases first + METADATA_ATTEMPTS - pos
  {
    if Answer(script, pos).Fail? && pos + 1 < first + METADATA_ATTEMPTS {
      FetchEarlierAttemptsFailed(script, first, pos + 1);
    }
  }

  /**
   * A run through the list of emails after some of them: the statistics
   * table, the metadata fetched so far, the error that stopped the run, the
   * number of `messages.get` calls made and the email id each of them asked
   * for, in order.
   */
  datatype Run = Run(table: Table, records: seq<Metadata>, failure: Option<string>, calls: nat, asked: seq<MessageRef>)

  /** `id`, asked for `k` times in a row (nothing when k is not positive). */
  function Repeat(id: MessageRef, k: int): (r: seq<MessageRef>)
    ensures |r| == if k <= 0 then 0 else k
  {
    if k <= 0 then [] else Repeat(id, k - 1) + [id]
  }

  /** Every element of `Repeat(id, k)` is `id`. */
  lemma {:induction false} RepeatAll(id: MessageRef, k: int)
    ensures forall j :: 0 <= j < |Repeat(id, k)| ==> Repeat(id, k)[j] == id
  {
    if k > 0 {
      RepeatAll(id, k - 1);
    }
  }

  /**
   * One more email, with id `id`: once an error has stopped the run nothing
   * happens; otherwise its metadata is fetched with retries, each call asking
   * for `id`, and tallied, or its third failure stops the run.
   */
  function Step(script: seq<Attempt<Metadata>>, id: MessageRef, r: Run): Run {
    if r.failure.Some? then r
    else
      var f := Fetch(script, r.calls);
      var asked := r.asked + Repeat(id, f.tries);
      match f.answer
      case Ok(m) => Run(Record(r.table, m), r.records + [m], None, r.calls + f.tries, asked)
      case Fail(e) => Run(r.table, r.records, Some(e), r.calls + f.tries, asked)
  }

  /** The first n emails processed in order, tallied on top of the table `t0`. */
  function Process(script: seq<Attempt<Metadata>>, emails: seq<MessageRef>, t0: Table, n: nat): Run
    requires n <= |emails|
  {
    if n == 0 then Start(t0) else Step(script, emails[n - 1], Process(script, emails, t0, n - 1))
  }

  /** Each state of `trace` is the one before it moved on by the next email of `emails`. */
  ghost predicate IsTrace(script: seq<Attempt<Metadata>>, emails: seq<MessageRef>, trace: seq<Run>) {
    && |trace| <= |emails| + 1
    && forall k {:trigger Step(script, emails[k], trace[k])} :: 0 <= k < |trace| - 1 ==>
         trace[k + 1] == Step(script, emails[k], trace[k])
  }

  /** Once a state of a trace has an error, every later state is that same state. */
  lemma {:induction false} TraceStops(script: seq<Attempt<Metadata>>, emails: seq<MessageRef>, trace: seq<Run>, m: nat, n: nat)
    requires IsTrace(script, emails, trace) && m <= n < |trace| && trace[m].failure.Some?
    ensures trace[n] == trace[m]
    decreases n - m
  {
    if m < n {
      TraceStops(script, emails, trace, m, n - 1);
      assert trace[n] == Step(script, emails[n - 1], trace[n - 1]);
    }
  }

  /** The state of a run before any email, on top of the table `t0`. */
  function Start(t0: Table): Run {
    Run(t0, [], None, 0, [])
  }

  /** A trace from `Start(t0)` holds the states of `Process` after 0, 1, 2, ... emails. */
  lemma {:induction false} TraceIsProcess(script: seq<Attempt<Metadata>>, emails: seq<MessageRef>, t0: Table, trace: seq<Run>, k: nat)
    requires IsTrace(script, emails, trace) && |trace| > 0 && trace[0] == Start(t0)
    requires k < |trace|
    ensures trace[k] == Process(script, emails, t0, k)
  {
    if k > 0 {
      TraceIsProcess(script, emails, t0, trace, k - 1);
      assert trace[k] == Step(script, emails[k - 1], trace[k - 1]);
    }
  }

  /** The states of a run after 0, 1, ..., n emails exist as one trace. */
  lemma {:induction false} ProcessTrace(script: seq<Attempt<Metadata>>, emails: seq<MessageRef>, t0: Table, n: nat)
    returns (trace: seq<Run>)
    requires n <= |emails|
    ensures |trace| == n + 1 && trace[0] == Start(t0) && IsTrace(script, emails, trace)
  {
    if n == 0 {
      trace := [Start(t0)];
    } else {
      var init := ProcessTrace(script, emails, t0, n - 1);
      trace := init + [Step(script, emails[n - 1], init[n - 1])];
      forall k | 0 <= k < |trace| - 1 ensures trace[k + 1] == Step(script, emails[k], trace[k]) {
        if k + 1 < n {
          assert trace[k + 1] == init[k + 1] && trace[k] == init[k];
          assert init[k + 1] == Step(script, emails[k], init[k]);
        }
      }
    }
  }

  /**
   * Without an error every email is fetched; with one, some email f failed
   * after the f before it were fetched, and the emails from it on are not.
   */
  lemma {:induction false} ProcessLength(script: seq<Attempt<Metadata>>, emails: seq<MessageRef>, t0: Table, n: nat)
    requires n <= |emails|
    ensures var r := Process(script, emails, t0, n);
      && (r.failure.None? ==> |r.records| == n)
      && (r.failure.Some? ==> |r.records| < n)
    ensures Process(script, emails, t0, n).failure.Some? ==>
      exists f :: 0 <= f < n && Process(script, emails, t0, f).failure.None? &&
        Process(script, emails, t0, f + 1).failure.Some? && |Process(script, emails, t0, n).records| == f
  {
    if n > 0 {
      ProcessLength(script, emails, t0, n - 1);
      var prev := Process(script, emails, t0, n - 1);
      if prev.failure.Some? {
        var f :| 0 <= f < n - 1 && Process(script, emails, t0, f).failure.None? &&
          Process(script, emails, t0, f + 1).failure.Some? && |prev.records| == f;
        assert Process(script, emails, t0, n) == prev;
      } else if Process(script, emails, t0, n).failure.Some? {
        assert Process(script, emails, t0, n).records == prev.records;
      }
    }
  }

  /** Once an email has failed, processing more emails changes nothing: the error ends the run. */
  lemma {:induction false} ProcessStopsAtFailure(script: seq<Attempt<Metadata>>, emails: seq<MessageRef>, t0: Table, m: nat, n: nat)
    requires m <= n <= |emails| && Process(script, emails, t0, m).failure.Some?
    ensures Process(script, emails, t0, n) == Process(script, emails, t0, m)
    decreases n - m
  {
    if m < n {
      ProcessStopsAtFailure(script, emails, t0, m, n - 1);
    }
  }

  /**
   * Each processed email took one to three calls, each fetched record at
   * least one, and every call asked for one id.
   */
  lemma {:induction false} ProcessCalls(script: seq<Attempt<Metadata>>, emails: seq<MessageRef>, t0: Table, n: nat)
    requires n <= |emails|
    ensures var r := Process(script, emails, t0, n);
      |r.records| <= r.calls <= METADATA_ATTEMPTS * n && |r.asked| == r.calls
  {
    if n > 0 {
      ProcessCalls(script, emails, t0, n - 1);
    }
  }

  /** Processing more emails only appends to what was fetched, and an error, once met, stays. */
  lemma {:induction false} ProcessExtends(script: seq<Attempt<Metadata>>, emails: seq<MessageRef>, t0: Table, m: nat, n: nat)
    requires m <= n <= |emails|
    ensures Process(script, emails, t0, m).records <= Process(script, emails, t0, n).records
    ensures Process(script, emails, t0, m).calls <= Process(script, emails, t0, n).calls
    ensures Process(script, emails, t0, m).asked <= Process(script, emails, t0, n).asked
    ensures Process(script, emails, t0, n).failure.None? ==> Process(script, emails, t0, m).failure.None?
    decreases n - m
  {
    if m < n {
      ProcessExtends(script, emails, t0, m, n - 1);
    }
  }

  /** The table of a run is the fetched metadata tallied, in order, on top of `t0`. */
  lemma {:induction false} ProcessTallies(script: seq<Attempt<Metadata>>, emails: seq<MessageRef>, t0: Table, n: nat)
    requires n <= |emails|
    ensures Process(script, emails, t0, n).table == RecordAll(t0, Process(script, emails, t0, n).records)
  {
    if n > 0 {
      ProcessTallies(script, emails, t0, n - 1);
      var r := Process(script, emails, t0, n - 1);
      var q := Process(script, emails, t0, n);
      assert q == Step(script, emails[n - 1], r);
      if r.failure.None? && Fetch(script, r.calls).answer.Ok? {
        var m := Fetch(script, r.calls).answer.value;
        assert q.table == Record(r.table, m) && q.records == r.records + [m];
        RecordAllSnoc(t0, r.records, m);
      } else {
        assert q.table == r.table && q.records == r.records;
      }
    }
  }

  /**
   * Each email id is visited once, in order: the calls of a run from the
   * start ask for email 0's id one to three times, then email 1's, and so
   * on, and an email after the one that stopped the run makes no call. Call
   * j asks for email k's id exactly when it lies between the call counts
   * before and after email k.
   */
  lemma {:induction false} AskedInOrder(script: seq<Attempt<Metadata>>, emails: seq<MessageRef>, t0: Table, trace: seq<Run>, n: nat)
    requires IsTrace(script, emails, trace) && |trace| > 0 && trace[0] == Start(t0)
    requires n < |trace|
    ensures |trace[n].asked| == trace[n].calls
    ensures forall k :: 0 <= k <= n ==> trace[k].calls <= trace[n].calls
    ensures forall k :: 0 <= k < n ==>
      if trace[k].failure.None? then trace[k].calls < trace[k + 1].calls <= trace[k].calls + METADATA_ATTEMPTS
      else trace[k + 1] == trace[k]
    ensures forall k, j :: 0 <= k < n && trace[k].calls <= j < trace[k + 1].calls ==> trace[n].asked[j] == emails[k]
  {
    if n > 0 {
      AskedInOrder(script, emails, t0, trace, n - 1);
      var prev, r := trace[n - 1], trace[n];
      assert r == Step(script, emails[n - 1], prev);
      if prev.failure.None? {
        RepeatAll(emails[n - 1], r.calls - prev.calls);
      }
      forall k, j | 0 <= k < n && trace[k].calls <= j < trace[k + 1].calls ensures r.asked[j] == emails[k] {
        if k < n - 1 {
          assert trace[k + 1].calls <= prev.calls;
          assert r.asked[j] == prev.asked[j];
        }
      }
    }
  }

  /** A snapshot written by the periodic progress save. */
  datatype Checkpoint = Checkpoint(processed: nat, entries: seq<Entry>)

  /** The `Map` of statistics that `processEmailsInBatches` updates in place. */
  class SenderStatsMap {
    var table: Table

    /** `new Map()`. */
    constructor ()
      ensures table == Empty()
    {
      table := Empty();
    }

    /**
     * Tallies one fetched message under its sender: an unseen sender starts
     * at {0, 0, null}, then count, size and last date move.
     */
    method Tally(m: Metadata)
      modifies this
      ensures table == Record(old(table), m)
    {
      ghost var t := table;
      var sender := Sender(m);
      if sender !in table.values {
        table := Set(table, sender, UNSEEN);
      }
      var stats := table.values[sender];
      var updated := Stats(stats.count + 1, stats.totalSize + Size(m), Date(m));
      SetTwice(t, sender, UNSEEN, updated);
      table := Set(table, sender, updated);
    }
  }

  /**
   * A count that moves from a multiple of 100 by at most 100 does not jump
   * past the next multiple of 1000, and is a multiple of 1000 only on it.
   */
  lemma ThousandsCrossed(batches: nat, b: nat, c: nat)
    requires 0 < b <= BATCH_SIZE
    requires SAVE_EVERY * c <= BATCH_SIZE * batches < SAVE_EVERY * (c + 1)
    ensures BATCH_SIZE * batches + b <= SAVE_EVERY * (c + 1)
    ensures (BATCH_SIZE * batches + b) % SAVE_EVERY == 0 <==> BATCH_SIZE * batches + b == SAVE_EVERY * (c + 1)
  {
    var i := 100 * batches;
    var r := i - 1000 * c;
    assert r == 100 * (batches - 10 * c);
    assert r <= 900;
    if i + b < 1000 * (c + 1) {
      assert (i + b) % 1000 == r + b by {
        assert i + b == 1000 * c + (r + b);
      }
    }
  }

  /** The number of multiples of 1000 up to a count. */
  lemma ThousandsBelow(x: nat, c: nat)
    requires SAVE_EVERY * c <= x < SAVE_EVERY * (c + 1)
    ensures x / SAVE_EVERY == c
  {
  }

  /** A count that lies in the batch starting at email `BATCH_SIZE * batches` rounds down to that start. */
  lemma BatchStart(batches: nat, e: nat)
    requires e < BATCH_SIZE
    ensures (BATCH_SIZE * batches + e) / BATCH_SIZE * BATCH_SIZE == BATCH_SIZE * batches
  {
  }

  /** Tallying one more record is one more step of the fold. */
  lemma RecordAllSnoc(t: Table, ms: seq<Metadata>, m: Metadata)
    ensures RecordAll(t, ms + [m]) == Record(RecordAll(t, ms), m)
  {
    assert (ms + [m])[..|ms|] == ms;
  }

  /**
   * One email of a batch: `messages.get` tried up to three times from call
   * `calls` on, each call asking for the email's id `id`; the first answer
   * that arrives is tallied, the third failure is handed back for the caller
   * to rethrow.
   */
  method FetchAndTally(id: MessageRef, script: seq<Attempt<Metadata>>, calls: nat, senderStats: SenderStatsMap)
    returns (f: Fetched, asked: seq<MessageRef>)
    modifies senderStats
    ensures f == Fetch(script, calls)
    ensures asked == Repeat(id, f.tries)
    ensures senderStats.table == if f.answer.Ok? then Record(old(senderStats.table), f.answer.value) else old(senderStats.table)
  {
    var retries := METADATA_ATTEMPTS;
    var next := calls;
    asked := [];
    while true
      invariant 1 <= retries <= METADATA_ATTEMPTS
      invariant next == calls + (METADATA_ATTEMPTS - retries)
      invariant asked == Repeat(id, next - calls)
      invariant Fetch(script, calls) == FetchFrom(script, calls, next)
      invariant unchanged(senderStats)
      decreases retries
    {
      var response := Answer(script, next);
      next := next + 1;
      asked := asked + [id];
      match response {
        case Ok(message) =>
          senderStats.Tally(message);
          return Fetched(Ok(message), next - calls), asked;
        case Fail(error) =>
          retries := retries - 1;
          if retries == 0 {
            return Fetched(Fail(error), next - calls), asked;
          }
      }
    }
  }

  /**
   * One email of a batch in a run not yet stopped: its metadata fetched and
   * tallied, or its third failure handed back; `requested`, the ids asked
   * for so far, comes back with the email's id appended once per call.
   */
  method ProcessEmail(id: MessageRef, script: seq<Attempt<Metadata>>, calls: nat, requested: seq<MessageRef>,
                      ghost r: Run, senderStats: SenderStatsMap)
    returns (callsAfter: nat, error: Option<string>, requestedAfter: seq<MessageRef>)
    requires r.failure.None? && calls == r.calls && requested == r.asked && senderStats.table == r.table
    modifies senderStats
    ensures var s := Step(script, id, r);
      && senderStats.table == s.table && error == s.failure && callsAfter == s.calls
      && requestedAfter == s.asked
  {
    var f, asked := FetchAndTally(id, script, calls, senderStats);
    requestedAfter := requested + asked;
    callsAfter := calls + f.tries;
    if f.answer.Fail? {
      error := Some(f.answer.message);
    } else {
      error := None;
    }
  }

  /**
   * The emails of one batch, in order, each through `ProcessEmail`, after
   * `start` emails of `emails` were processed without error; the error of
   * the first email that fails three times is handed back.
   */
  method ProcessBatch(batch: seq<MessageRef>, ghost emails: seq<MessageRef>, script: seq<Attempt<Metadata>>,
                      start: nat, calls: nat, requested: seq<MessageRef>, ghost trace: seq<Run>, senderStats: SenderStatsMap)
    returns (callsAfter: nat, error: Option<string>, requestedAfter: seq<MessageRef>)
    requires IsTrace(script, emails, trace) && start + |batch| < |trace|
    requires batch == emails[start..start + |batch|]
    requires var r := trace[start];
      && r.failure.None? && |r.records| == start && calls == r.calls && requested == r.asked
      && senderStats.table == r.table
    modifies senderStats
    ensures var r := trace[start + |batch|];
      && senderStats.table == r.table
      && error == r.failure
      && requestedAfter == r.asked
      && (error.None? ==> callsAfter == r.calls && |r.records| == start + |batch|)
      && (error.Some? ==> start <= |r.records| < start + |batch|)
  {
    callsAfter := calls;
    requestedAfter := requested;
    for e := 0 to |batch|
      invariant var r := trace[start + e];
        && r.failure.None? && |r.records| == start + e && callsAfter == r.calls && requestedAfter == r.asked
        && senderStats.table == r.table
    {
      assert batch[e] == emails[start + e];
      callsAfter, error, requestedAfter := ProcessEmail(batch[e], script, callsAfter, requestedAfter, trace[start + e], senderStats);
      if error.Some? {
        TraceStops(script, emails, trace, start + e + 1, start + |batch|);
        return;
      }
    }
    error := None;
  }

  /**
   * `processEmailsInBatches`: emails in slices of BATCH_SIZE, each email's
   * metadata fetched with up to three attempts and tallied into `senderStats`;
   * a snapshot is saved whenever the processed count is a multiple of
   * SAVE_EVERY; the first email that fails three times aborts the run with its
   * error, leaving what was tallied so far.
   */
  method ProcessEmailsInBatches(emails: seq<MessageRef>, script: seq<Attempt<Metadata>>, senderStats: SenderStatsMap)
    returns (result: Attempt<()>, checkpoints: seq<Checkpoint>, requested: seq<MessageRef>, ghost trace: seq<Run>)
    modifies senderStats
    ensures |trace| == |emails| + 1 && trace[0] == Start(old(senderStats.table)) && IsTrace(script, emails, trace)
    ensures var r := trace[|emails|];
      && senderStats.table == r.table
      && requested == r.asked
      && (result.Ok? <==> r.failure.None?)
      && (result.Fail? ==> r.failure == Some(result.message))
      && |checkpoints| == (if result.Ok? then |emails| else |r.records| / BATCH_SIZE * BATCH_SIZE) / SAVE_EVERY
    ensures forall j :: 0 <= j < |checkpoints| ==>
      SAVE_EVERY * (j + 1) <= |emails| &&
      checkpoints[j] == Checkpoint(SAVE_EVERY * (j + 1), JsMap.Entries(trace[SAVE_EVERY * (j + 1)].table))
  {
    trace := ProcessTrace(script, emails, senderStats.table, |emails|);
    var processedCount := 0;
    var calls := 0;
    checkpoints := [];
    requested := [];
    var i := 0;
    ghost var batches := 0;
    while i < |emails|
      invariant i == BATCH_SIZE * batches
      invariant processedCount == if i <= |emails| then i else |emails|
      invariant var r := trace[processedCount];
        && r.failure.None? && |r.records| == processedCount && calls == r.calls && requested == r.asked
        && senderStats.table == r.table
      invariant SAVE_EVERY * |checkpoints| <= processedCount < SAVE_EVERY * (|checkpoints| + 1)
      invariant forall j :: 0 <= j < |checkpoints| ==>
        checkpoints[j] == Checkpoint(SAVE_EVERY * (j + 1), JsMap.Entries(trace[SAVE_EVERY * (j + 1)].table))
    {
      var batch := emails[i..if i + BATCH_SIZE <= |emails| then i + BATCH_SIZE else |emails|];
      var error;
      calls, error, requested := ProcessBatch(batch, emails, script, i, calls, requested, trace, senderStats);
      if error.Some? {
        result := Fail(error.value);
        TraceStops(script, emails, trace, i + |batch|, |emails|);
        BatchStart(batches, |trace[i + |batch|].records| - i);
        ThousandsBelow(i, |checkpoints|);
        return;
      }
      ThousandsCrossed(batches, |batch|, |checkpoints|);
      processedCount := processedCount + |batch|;
      if processedCount % SAVE_EVERY == 0 {
        checkpoints := checkpoints + [Checkpoint(processedCount, JsMap.Entries(senderStats.table))];
      }
      i := i + BATCH_SIZE;
      batches := batches + 1;
    }
    result := Ok(());
    ThousandsBelow(|emails|, |checkpoints|);
  }

  /** Entries ordered by count, largest first. */
  ghost predicate ByCountDescending(es: seq<Entry>) {
    forall i, j :: 0 <= i < j < |es| ==> es[i].1.count >= es[j].1.count
  }

  /** The entries with a given count, in their order. */
  function WithCount(es: seq<Entry>, c: nat): seq<Entry> {
    if es == [] then []
    else (if es[0].1.count == c then [es[0]] else []) + WithCount(es[1..], c)
  }

  /** Places `e` after every entry whose count is at least its own. */
  function InsertByCount(sorted: seq<Entry>, e: Entry): (r: seq<Entry>)
    ensures multiset(r) == multiset(sorted) + multiset{e}
  {
    if sorted == [] then [e]
    else if sorted[0].1.count >= e.1.count then
      assert sorted == [sorted[0]] + sorted[1..];
      [sorted[0]] + InsertByCount(sorted[1..], e)
    else [e] + sorted
  }

  /** Inserting an entry under a bound on counts into entries under it stays under it. */
  lemma {:induction false} InsertByCountBounded(sorted: seq<Entry>, e: Entry, b: nat)
    requires forall x <- sorted :: x.1.count <= b
    requires e.1.count <= b
    ensures forall x <- InsertByCount(sorted, e) :: x.1.count <= b
  {
    if sorted != [] && sorted[0].1.count >= e.1.count {
      InsertByCountBounded(sorted[1..], e, b);
    }
  }

  lemma {:induction false} InsertByCountSorted(sorted: seq<Entry>, e: Entry)
    requires ByCountDescending(sorted)
    ensures ByCountDescending(InsertByCount(sorted, e))
  {
    if sorted != [] && sorted[0].1.count >= e.1.count {
      var rest := InsertByCount(sorted[1..], e);
      InsertByCountSorted(sorted[1..], e);
      InsertByCountBounded(sorted[1..], e, sorted[0].1.count);
      var r := [sorted[0]] + rest;
      assert r[1..] == rest;
      forall i, j | 0 <= i < j < |r| ensures r[i].1.count >= r[j].1.count {
        assert r[j] == r[1..][j - 1];
        if i > 0 {
          assert r[i] == r[1..][i - 1];
        }
      }
    }
  }

  /**
   * `.sort((a, b) => b[1].count - a[1].count)`: the engine's sort is stable,
   * so its result is the stable sort by count, descending, computed here by
   * insertion.
   */
  function SortByCount(es: seq<Entry>): seq<Entry> {
    if es == [] then [] else InsertByCount(SortByCount(es[..|es| - 1]), es[|es| - 1])
  }

  /** The sorted entries are a permutation of the entries. */
  lemma {:induction false} SortByCountPermutes(es: seq<Entry>)
    ensures multiset(SortByCount(es)) == multiset(es)
  {
    if es != [] {
      SortByCountPermutes(es[..|es| - 1]);
      assert es == es[..|es| - 1] + [es[|es| - 1]];
    }
  }

  /** The sorted entries have non-increasing counts. */
  lemma {:induction false} SortByCountOrders(es: seq<Entry>)
    ensures ByCountDescending(SortByCount(es))
  {
    if es != [] {
      SortByCountOrders(es[..|es| - 1]);
      InsertByCountSorted(SortByCount(es[..|es| - 1]), es[|es| - 1]);
    }
  }

  lemma {:induction false} WithCountInsert(sorted: seq<Entry>, e: Entry, c: nat)
    requires ByCountDescending(sorted)
    ensures WithCount(InsertByCount(sorted, e), c) == WithCount(sorted, c) + (if e.1.count == c then [e] else [])
  {
    if sorted == [] {
      assert WithCount([e], c) == (if e.1.count == c then [e] else []) + WithCount([], c);
    } else if sorted[0].1.count >= e.1.count {
      var x, tail := sorted[0], sorted[1..];
      assert ByCountDescending(tail);
      WithCountInsert(tail, e, c);
      var hx := if x.1.count == c then [x] else [];
      var he := if e.1.count == c then [e] else [];
      assert ([x] + InsertByCount(tail, e))[1..] == InsertByCount(tail, e);
      assert hx + (WithCount(tail, c) + he) == (hx + WithCount(tail, c)) + he;
    } else {
      assert ([e] + sorted)[1..] == sorted;
      if e.1.count == c {
        forall x <- sorted ensures x.1.count < c {
          var i :| 0 <= i < |sorted| && sorted[i] == x;
          assert i == 0 || sorted[0].1.count >= sorted[i].1.count;
        }
        WithCountAllBelow(sorted, c);
      }
    }
  }

  lemma {:induction false} WithCountAllBelow(es: seq<Entry>, c: nat)
    requires forall x <- es :: x.1.count < c
    ensures WithCount(es, c) == []
  {
    if es != [] {
      WithCountAllBelow(es[1..], c);
    }
  }

  lemma {:induction false} WithCountSnoc(es: seq<Entry>, x: Entry, c: nat)
    ensures WithCount(es + [x], c) == WithCount(es, c) + (if x.1.count == c then [x] else [])
  {
    if es == [] {
      assert WithCount([x], c) == (if x.1.count == c then [x] else []) + WithCount([], c);
    } else {
      var t := es + [x];
      assert t[0] == es[0] && t[1..] == es[1..] + [x];
      WithCountSnoc(es[1..], x, c);
      var h := if es[0].1.count == c then [es[0]] else [];
      var last := if x.1.count == c then [x] else [];
      assert WithCount(t, c) == h + (WithCount(es[1..], c) + last);
      assert h + (WithCount(es[1..], c) + last) == (h + WithCount(es[1..], c)) + last;
    }
  }

  /** The sort is stable: entries with equal counts keep their insertion order. */
  lemma {:induction false} SortByCountStable(es: seq<Entry>, c: nat)
    ensures WithCount(SortByCount(es), c) == WithCount(es, c)
  {
    if es != [] {
      var init, last := es[..|es| - 1], es[|es| - 1];
      SortByCountStable(init, c);
      SortByCountOrders(init);
      WithCountInsert(SortByCount(init), last, c);
      assert es == init + [last];
      WithCountSnoc(init, last, c);
    }
  }
}
