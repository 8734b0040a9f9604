/**
 * `bulkDeleteFromEmailList` (AnalysisBulkDelete.js:297-359): takes the list
 * of senders (the content of a list file, or the addresses themselves), runs
 * the bulk delete for each non-empty entry in order, and accumulates the
 * total, the count per sender (a JavaScript `Map`) and a progress record
 * after each sender.
 */
module DeleteDriver {
  import opened Remote
  import opened Text
  import opened JsMap
  import BulkDelete

  /** `line && !line.startsWith('#')`: a non-empty line that is not a comment. */
  predicate IsTarget(line: string) {
    line != [] && line[0] != '#'
  }

  /** The lines, trimmed, that are neither empty nor comments, in order. */
  function Targets(lines: seq<string>): (targets: seq<string>)
    ensures forall t <- targets :: IsTarget(t) && Trim(t) == t
  {
    if lines == [] then []
    else
      var t := Trim(lines[0]);
      TrimIdempotent(lines[0]);
      (if IsTarget(t) then [t] else []) + Targets(lines[1..])
  }

  /** The list file's content split at '\n', trimmed and filtered. */
  function ParseTargetList(content: string): (targets: seq<string>)
    ensures forall t <- targets :: IsTarget(t) && Trim(t) == t
  {
    Targets(SplitLines(content))
  }

  /** The filter keeps order: the targets of two blocks of lines are those of the first, then those of the second. */
  lemma {:induction false} TargetsAppend(a: seq<string>, b: seq<string>)
    ensures Targets(a + b) == Targets(a) + Targets(b)
  {
    if a == [] {
      assert a + b == b;
    } else {
      assert (a + b)[1..] == a[1..] + b;
      TargetsAppend(a[1..], b);
    }
  }

  /** A string is a target exactly when it is a line that, trimmed, is neither empty nor a comment. */
  lemma {:induction false} TargetsMember(lines: seq<string>, t: string)
    ensures t in Targets(lines) <==> IsTarget(t) && exists i :: 0 <= i < |lines| && Trim(lines[i]) == t
  {
    if lines != [] {
      TargetsMember(lines[1..], t);
      if t in Targets(lines[1..]) {
        var i :| 0 <= i < |lines[1..]| && Trim(lines[1..][i]) == t;
        assert Trim(lines[i + 1]) == t;
      }
      if IsTarget(t) && exists i :: 0 <= i < |lines| && Trim(lines[i]) == t {
        var i :| 0 <= i < |lines| && Trim(lines[i]) == t;
        if i > 0 {
          assert Trim(lines[1..][i - 1]) == t;
        }
      }
    }
  }

  /** A file written as lines (none containing '\n') is read back as the targets among those lines. */
  lemma ParseJoinedLines(lines: seq<string>)
    requires lines != [] && forall l <- lines :: '\n' !in l
    ensures ParseTargetList(JoinLines(lines)) == Targets(lines)
  {
    SplitJoin(lines);
  }

  /** `emailList`: a file path, represented by the file's content, or the array of addresses. */
  datatype EmailList = File(content: string) | Addresses(addresses: seq<string>)

  /** The entries the loop runs over. */
  function Entries(emailList: EmailList): seq<string> {
    match emailList
    case File(content) => ParseTargetList(content)
    case Addresses(addresses) => addresses
  }

  /** The remote answers seen by the bulk delete of one sender. */
  datatype SenderScripts = SenderScripts(listing: seq<Attempt<Page>>, deletes: seq<Attempt<()>>)

  /** The scripts of the entry at position `j`; an entry without scripts sees none. */
  function ScriptsAt(senders: seq<SenderScripts>, j: nat): SenderScripts {
    if j < |senders| then senders[j] else SenderScripts([], [])
  }

  /** The count `bulkDeleteFromSender` returns for each entry. */
  ghost function Counts(entries: seq<string>, senders: seq<SenderScripts>): (counts: seq<nat>)
    ensures |counts| == |entries|
  {
    seq(|entries|, j requires 0 <= j < |entries| =>
      BulkDelete.Run(ScriptsAt(senders, j).listing, ScriptsAt(senders, j).deletes).0.deletedCount)
  }

  /** `totalDeleted` after the first `n` entries: the counts of the entries not skipped. */
  function Total(entries: seq<string>, counts: seq<nat>, n: nat): nat
    requires n <= |entries| == |counts|
  {
    if n == 0 then 0
    else Total(entries, counts, n - 1) + (if entries[n - 1] == "" then 0 else counts[n - 1])
  }

  /** `deleteStats` after the first `n` entries. */
  function Stats(entries: seq<string>, counts: seq<nat>, n: nat): OrderedMap<string, nat>
    requires n <= |entries| == |counts|
  {
    if n == 0 then Empty()
    else
      var stats := Stats(entries, counts, n - 1);
      if entries[n - 1] == "" then stats else Set(stats, entries[n - 1], counts[n - 1])
  }

  /** What is written to the progress file after a sender. */
  datatype Progress = Progress(totalDeleted: nat, lastProcessedEmail: string, deleteStats: OrderedMap<string, nat>)

  /** The progress records written during the first `n` entries. */
  function Saves(entries: seq<string>, counts: seq<nat>, n: nat): seq<Progress>
    requires n <= |entries| == |counts|
  {
    if n == 0 then []
    else
      var saves := Saves(entries, counts, n - 1);
      if entries[n - 1] == "" then saves
      else saves + [Progress(Total(entries, counts, n), entries[n - 1], Stats(entries, counts, n))]
  }

  /** The entries among the first `n` that are not skipped, each once, in the order of first appearance. */
  function FirstSeen(entries: seq<string>, n: nat): seq<string>
    requires n <= |entries|
  {
    if n == 0 then []
    else
      var seen := FirstSeen(entries, n - 1);
      if entries[n - 1] == "" || entries[n - 1] in seen then seen else seen + [entries[n - 1]]
  }

  /** `entries[j]` is not skipped and does not occur again among the first `n` entries. */
  predicate LastOccurrence(entries: seq<string>, n: nat, j: nat)
    requires n <= |entries|
  {
    j < n && entries[j] != "" && forall i :: j < i < n ==> entries[i] != entries[j]
  }

  /** The entries first seen are exactly the entries not skipped. */
  lemma {:induction false} FirstSeenMember(entries: seq<string>, n: nat, e: string)
    requires n <= |entries|
    ensures e in FirstSeen(entries, n) <==> e != "" && e in entries[..n]
  {
    if n > 0 {
      FirstSeenMember(entries, n - 1, e);
      assert entries[..n] == entries[..n - 1] + [entries[n - 1]];
    }
  }

  /**
   * The map is well formed and lists the entries not skipped, each once, in
   * the order of their first appearance: a `set` on a key already present
   * keeps its place.
   */
  lemma {:induction false} StatsKeys(entries: seq<string>, counts: seq<nat>, n: nat)
    requires n <= |entries| == |counts|
    ensures Stats(entries, counts, n).Valid()
    ensures Stats(entries, counts, n).keys == FirstSeen(entries, n)
  {
    if n > 0 {
      StatsKeys(entries, counts, n - 1);
      var prev := Stats(entries, counts, n - 1);
      var e := entries[n - 1];
      if e != "" {
        SetSpec(prev, e, counts[n - 1]);
        assert e in prev.values <==> e in prev.keys;
      }
    }
  }

  /** Each entry not skipped holds the count of its last occurrence: a later `set` replaces the value. */
  lemma {:induction false} StatsLastWins(entries: seq<string>, counts: seq<nat>, n: nat, j: nat)
    requires n <= |entries| == |counts|
    requires LastOccurrence(entries, n, j)
    ensures entries[j] in Stats(entries, counts, n).values
    ensures Stats(entries, counts, n).values[entries[j]] == counts[j]
  {
    var e := entries[n - 1];
    if j < n - 1 {
      assert LastOccurrence(entries, n - 1, j);
      StatsLastWins(entries, counts, n - 1, j);
    }
  }

  /** The sum of the values listed under `keys`. */
  function SumOver(keys: seq<string>, values: map<string, nat>): nat
    requires forall k <- keys :: k in values
  {
    if keys == [] then 0 else SumOver(keys[..|keys| - 1], values) + values[keys[|keys| - 1]]
  }

  lemma {:induction false} SumOverFrame(keys: seq<string>, values: map<string, nat>, k: string, v: nat)
    requires (forall x <- keys :: x in values) && k !in keys
    ensures SumOver(keys, values[k := v]) == SumOver(keys, values)
  {
    if keys != [] {
      SumOverFrame(keys[..|keys| - 1], values, k, v);
    }
  }

  /** Setting a new key adds its value to the sum. */
  lemma SumOverSetNew(m: OrderedMap<string, nat>, k: string, v: nat)
    requires m.Valid() && k !in m.values
    ensures Set(m, k, v).Valid()
    ensures SumOver(Set(m, k, v).keys, Set(m, k, v).values) == SumOver(m.keys, m.values) + v
  {
    SetSpec(m, k, v);
    var next := Set(m, k, v);
    assert next.keys[..|next.keys| - 1] == m.keys;
    assert k !in m.keys;
    SumOverFrame(m.keys, m.values, k, v);
  }

  /** An entry that did not occur before is not yet in the map. */
  lemma NewSender(entries: seq<string>, counts: seq<nat>, n: nat)
    requires 0 < n <= |entries| == |counts|
    requires entries[n - 1] !in entries[..n - 1]
    ensures entries[n - 1] !in Stats(entries, counts, n - 1).keys
    ensures entries[n - 1] !in Stats(entries, counts, n - 1).values
  {
    StatsKeys(entries, counts, n - 1);
    FirstSeenMember(entries, n - 1, entries[n - 1]);
  }

  /**
   * When no sender is listed twice, the total is the sum of the map's
   * counts; a sender listed twice is counted in the total on each run but
   * keeps only its last count in the map.
   */
  lemma {:induction false} TotalWithoutRepeats(entries: seq<string>, counts: seq<nat>, n: nat)
    requires n <= |entries| == |counts|
    requires forall j :: 0 <= j < n && entries[j] != "" ==> entries[j] !in entries[..j]
    ensures Stats(entries, counts, n).Valid()
    ensures Total(entries, counts, n) == SumOver(Stats(entries, counts, n).keys, Stats(entries, counts, n).values)
  {
    StatsKeys(entries, counts, n);
    if n > 0 {
      TotalWithoutRepeats(entries, counts, n - 1);
      var prev := Stats(entries, counts, n - 1);
      var e := entries[n - 1];
      if e != "" {
        NewSender(entries, counts, n);
        SumOverSetNew(prev, e, counts[n - 1]);
      }
    }
  }

  /** A sender listed twice: both runs add to the total, but the map keeps one entry, holding the second count. */
  lemma RepeatedSender(e: string, a: nat, b: nat)
    requires e != ""
    ensures Total([e, e], [a, b], 2) == a + b
    ensures Stats([e, e], [a, b], 2).keys == [e]
    ensures Stats([e, e], [a, b], 2).values == map[e := b]
  {
    assert Total([e, e], [a, b], 1) == a;
    assert Stats([e, e], [a, b], 1) == OrderedMap([e], map[e := a]);
    assert map[e := a][e := b] == map[e := b];
  }

  /**
   * One record is written per entry not skipped; the totals recorded never
   * decrease, and the last record holds the final total and map.
   */
  lemma {:induction false} SavesSpec(entries: seq<string>, counts: seq<nat>, n: nat)
    requires n <= |entries| == |counts|
    ensures var saves := Saves(entries, counts, n);
      && (saves == [] <==> forall j :: 0 <= j < n ==> entries[j] == "")
      && (forall i, j :: 0 <= i < j < |saves| ==> saves[i].totalDeleted <= saves[j].totalDeleted)
      && (saves != [] ==>
            && saves[|saves| - 1].totalDeleted == Total(entries, counts, n)
            && saves[|saves| - 1].deleteStats == Stats(entries, counts, n))
      && (forall s <- saves :: s.totalDeleted <= Total(entries, counts, n))
  {
    if n > 0 {
      SavesSpec(entries, counts, n - 1);
      var prev := Saves(entries, counts, n - 1);
      if entries[n - 1] != "" {
        var saves := Saves(entries, counts, n);
        forall i, j | 0 <= i < j < |saves| ensures saves[i].totalDeleted <= saves[j].totalDeleted {
          if j == |saves| - 1 {
            assert saves[i] in prev;
          }
        }
      }
    }
  }

  /**
   * The loop as written: each non-empty entry runs the bulk delete on its
   * scripts, adds the count to the total, sets it in the map and writes a
   * progress record. `maxMessagesPerSender` is accepted and never used.
   */
  method BulkDeleteFromEmailList(emailList: EmailList, senders: seq<SenderScripts>, maxMessagesPerSender: Option<nat>)
    returns (totalDeleted: nat, deleteStats: OrderedMap<string, nat>, saves: seq<Progress>)
    ensures var entries := Entries(emailList);
      var counts := Counts(entries, senders);
      && totalDeleted == Total(entries, counts, |entries|)
      && deleteStats == Stats(entries, counts, |entries|)
      && saves == Saves(entries, counts, |entries|)
  {
    var entries := Entries(emailList);
    ghost var counts := Counts(entries, senders);
    totalDeleted, deleteStats, saves := 0, Empty(), [];
    for j := 0 to |entries|
      invariant totalDeleted == Total(entries, counts, j)
      invariant deleteStats == Stats(entries, counts, j)
      invariant saves == Saves(entries, counts, j)
    {
      var email := entries[j];
      if email == "" {
        continue;
      }
      var scripts := ScriptsAt(senders, j);
      var deletedCount, _, _, _, _, _ := BulkDelete.BulkDeleteFromSender(scripts.listing, scripts.deletes);
      totalDeleted := totalDeleted + deletedCount;
      deleteStats := Set(deleteStats, email, deletedCount);
      saves := saves + [Progress(totalDeleted, email, deleteStats)];
    }
  }
}
