/**
 * `extractEmailAddress` (AnalysisBulkDelete.js:191-194): the key under which a
 * message is counted is the text captured by the regular expression
 * `/<(.+)>/` in its From header, or the trimmed header when it does not match.
 *
 * The expression is unanchored and its `.+` is greedy and matches no line
 * terminator, so the capture runs from the first '<' that starts a match to
 * the last '>' on the same line after it.
 */
module SenderKey {
  import opened Remote
  import opened Text

  /** `/<(.+)>/` matches with its '<' at index i and its '>' at index j. */
  predicate IsMatchAt(s: string, i: int, j: int) {
    && 0 <= i && i + 1 < j < |s|
    && s[i] == '<' && s[j] == '>'
    && forall k :: i < k < j ==> !IsLineTerminator(s[k])
  }

  /** The match the regular expression engine reports: leftmost start, then longest (greedy) extent. */
  ghost predicate IsReportedMatch(s: string, i: int, j: int) {
    && IsMatchAt(s, i, j)
    && (forall i', j' :: 0 <= i' < i ==> !IsMatchAt(s, i', j'))
    && (forall j' :: j < j' ==> !IsMatchAt(s, i, j'))
  }

  /** The index of the first line terminator at or after `from`, or |s|. */
  function LineEndFrom(s: string, from: nat): (e: nat)
    requires from <= |s|
    ensures from <= e <= |s|
    decreases |s| - from
  {
    if from == |s| || IsLineTerminator(s[from]) then from else LineEndFrom(s, from + 1)
  }

  /** No line terminator lies before the end found, and one lies at it unless it is the end of the string. */
  lemma {:induction false} LineEndFromSpec(s: string, from: nat)
    requires from <= |s|
    ensures var e := LineEndFrom(s, from);
      && (forall k :: from <= k < e ==> !IsLineTerminator(s[k]))
      && (e < |s| ==> IsLineTerminator(s[e]))
    decreases |s| - from
  {
    if from < |s| && !IsLineTerminator(s[from]) {
      LineEndFromSpec(s, from + 1);
    }
  }

  /** The last index in [lo, hi) holding '>', if any. */
  function LastClose(s: string, lo: nat, hi: nat): (j: Option<nat>)
    requires hi <= |s|
    ensures j.Some? ==> lo <= j.value < hi
    decreases hi
  {
    if hi <= lo then None
    else if s[hi - 1] == '>' then Some(hi - 1)
    else LastClose(s, lo, hi - 1)
  }

  /** The index found holds '>' and none after it in the range does; without one, none in the range does. */
  lemma {:induction false} LastCloseSpec(s: string, lo: nat, hi: nat)
    requires hi <= |s|
    ensures var j := LastClose(s, lo, hi);
      && (j.Some? ==> s[j.value] == '>' && forall k :: j.value < k < hi ==> s[k] != '>')
      && (j.None? ==> forall k :: lo <= k < hi ==> s[k] != '>')
    decreases hi
  {
    if lo < hi && s[hi - 1] != '>' {
      LastCloseSpec(s, lo, hi - 1);
    }
  }

  /** Where a match starting at index i ends, taking the longest one. */
  function MatchEnd(s: string, i: nat): (j: Option<nat>)
    requires i < |s|
    ensures j.Some? ==> i + 1 < j.value < |s|
  {
    if s[i] != '<' then None
    else LastClose(s, i + 2, LineEndFrom(s, i + 1))
  }

  /** The end found is that of the longest match from i; without one, no match starts at i. */
  lemma MatchEndSpec(s: string, i: nat)
    requires i < |s|
    ensures var j := MatchEnd(s, i);
      && (j.Some? ==> IsMatchAt(s, i, j.value) && forall j' :: j.value < j' ==> !IsMatchAt(s, i, j'))
      && (j.None? ==> forall j' :: !IsMatchAt(s, i, j'))
  {
    if s[i] == '<' {
      var e := LineEndFrom(s, i + 1);
      LineEndFromSpec(s, i + 1);
      LastCloseSpec(s, i + 2, e);
      assert forall j' :: IsMatchAt(s, i, j') ==> j' < e;
    }
  }

  /** The reported match among those starting at or after `from`. */
  function FindMatch(s: string, from: nat): (m: Option<(nat, nat)>)
    requires from <= |s|
    ensures m.Some? ==> from <= m.value.0 && m.value.0 + 1 < m.value.1 < |s|
    decreases |s| - from
  {
    if from == |s| then None
    else match MatchEnd(s, from)
      case Some(j) => Some((from, j))
      case None => FindMatch(s, from + 1)
  }

  /** The search finds the leftmost start of a match, and the longest match from it. */
  lemma {:induction false} FindMatchSpec(s: string, from: nat)
    requires from <= |s|
    ensures var m := FindMatch(s, from);
      && (m.Some? ==> from <= m.value.0 && IsMatchAt(s, m.value.0, m.value.1))
      && (m.Some? ==> forall i', j' :: from <= i' < m.value.0 ==> !IsMatchAt(s, i', j'))
      && (m.Some? ==> forall j' :: m.value.1 < j' ==> !IsMatchAt(s, m.value.0, j'))
      && (m.None? ==> forall i', j' :: from <= i' ==> !IsMatchAt(s, i', j'))
    decreases |s| - from
  {
    if from < |s| {
      MatchEndSpec(s, from);
      if MatchEnd(s, from).None? {
        FindMatchSpec(s, from + 1);
      }
    }
  }

  /** `extractEmailAddress`. */
  function ExtractEmailAddress(from: string): string {
    match FindMatch(from, 0)
    case Some((i, j)) => from[i + 1..j]
    case None => Trim(from)
  }

  /**
   * With a match, the key is the text strictly between the reported '<' and
   * '>'; without one, it is the input trimmed.
   */
  lemma ExtractEmailAddressSpec(from: string)
    ensures (forall i, j :: !IsMatchAt(from, i, j)) ==> ExtractEmailAddress(from) == Trim(from)
    ensures (exists i, j :: IsMatchAt(from, i, j)) ==>
      exists i, j :: IsReportedMatch(from, i, j) && ExtractEmailAddress(from) == from[i + 1..j]
  {
    FindMatchSpec(from, 0);
    match FindMatch(from, 0)
    case Some((i, j)) =>
      assert IsReportedMatch(from, i, j);
    case None =>
  }

  /** The reported match is unique, so the key is determined by it. */
  lemma ReportedMatchUnique(s: string, i: int, j: int, i2: int, j2: int)
    requires IsReportedMatch(s, i, j) && IsReportedMatch(s, i2, j2)
    ensures i == i2 && j == j2
  {
  }

  /** The key of a header with a match is its reported capture. */
  lemma KeyOfMatch(s: string, i: int, j: int)
    requires IsReportedMatch(s, i, j)
    ensures ExtractEmailAddress(s) == s[i + 1..j]
  {
    ExtractEmailAddressSpec(s);
    var i2, j2 :| IsReportedMatch(s, i2, j2) && ExtractEmailAddress(s) == s[i2 + 1..j2];
    ReportedMatchUnique(s, i, j, i2, j2);
  }

  /** The key of a header without a match is the header trimmed. */
  lemma KeyWithoutMatch(s: string)
    requires forall i, j :: !IsMatchAt(s, i, j)
    ensures ExtractEmailAddress(s) == Trim(s)
  {
    ExtractEmailAddressSpec(s);
  }

  /** A string that neither starts nor ends with white space is its own trim. */
  lemma TrimKeeps(s: string)
    requires s != [] && !IsTrimmable(s[0]) && !IsTrimmable(s[|s| - 1])
    ensures Trim(s) == s
  {
  }

  /** A display name with an angle-bracket address is keyed by the bare address. */
  lemma DisplayNameAddress(s: string)
    requires s == "Alice <a@x.com>"
    ensures ExtractEmailAddress(s) == "a@x.com"
  {
    assert IsMatchAt(s, 6, 14);
    forall i', j' | 0 <= i' < 6 ensures !IsMatchAt(s, i', j') {
      assert s[i'] != '<';
    }
    KeyOfMatch(s, 6, 14);
  }

  /** A bare address is its own key, so both forms of one sender are counted together. */
  lemma BareAddress(s: string)
    requires s == "a@x.com"
    ensures ExtractEmailAddress(s) == "a@x.com"
  {
    assert forall k :: 0 <= k < |s| ==> s[k] != '<';
    assert forall i, j :: !IsMatchAt(s, i, j);
    KeyWithoutMatch(s);
    TrimKeeps(s);
  }

  /** Several bracketed parts: the greedy capture spans from the first '<' to the last '>'. */
  lemma GreedyCapture(s: string)
    requires s == "<a> <b>"
    ensures ExtractEmailAddress(s) == "a> <b"
  {
    assert IsMatchAt(s, 0, 6);
    KeyOfMatch(s, 0, 6);
  }

  /** "<>" has nothing between the brackets for `.+`, so it is kept whole. */
  lemma EmptyBrackets(s: string)
    requires s == " <> "
    ensures ExtractEmailAddress(s) == "<>"
  {
    assert !IsMatchAt(s, 1, 2);
    assert forall i, j :: !IsMatchAt(s, i, j);
    KeyWithoutMatch(s);
    var t := "<> ";
    assert s[1..] == t;
    TrimStartStep(s);
    assert TrimStart(s) == t;
    TrimEndStep(t);
    assert t[..2] == "<>";
    assert TrimEnd(t) == "<>";
  }

  lemma TrimStartStep(s: string)
    requires |s| >= 2 && IsTrimmable(s[0]) && !IsTrimmable(s[1])
    ensures TrimStart(s) == s[1..]
  {
  }

  lemma TrimEndStep(s: string)
    requires |s| >= 2 && IsTrimmable(s[|s| - 1]) && !IsTrimmable(s[|s| - 2])
    ensures TrimEnd(s) == s[..|s| - 1]
  {
  }

  /** A line break between the brackets prevents the match. */
  lemma BracketsAcrossLines(s: string)
    requires s == "<a\nb>"
    ensures ExtractEmailAddress(s) == "<a\nb>"
  {
    forall i, j | IsMatchAt(s, i, j) ensures false {
      assert s[i] == '<' ==> i == 0;
      assert IsLineTerminator(s[2]);
    }
    KeyWithoutMatch(s);
    TrimKeeps(s);
  }
}
