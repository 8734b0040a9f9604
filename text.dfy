/**
 * The few JavaScript string operations the script relies on: `trim`,
 * `includes`, `split('\n')`, and the character classes of its regular
 * expressions.
 */
module Text {

  /** ECMAScript LineTerminator: the characters `.` in a regular expression does not match. */
  predicate IsLineTerminator(c: char) {
    c == '\n' || c == '\r' || c == '\U{2028}' || c == '\U{2029}'
  }

  /** ECMAScript WhiteSpace or LineTerminator: what `String.prototype.trim` strips. */
  predicate IsTrimmable(c: char) {
    || IsLineTerminator(c)
    || c == '\t' || c == '\U{000B}' || c == '\U{000C}' || c == ' '
    || c == '\U{00A0}' || c == '\U{FEFF}' || c == '\U{1680}'
    || ('\U{2000}' <= c <= '\U{200A}')
    || c == '\U{202F}' || c == '\U{205F}' || c == '\U{3000}'
  }

  /** Strips leading white space. */
  function TrimStart(s: string): (r: string)
    ensures |r| <= |s|
  {
    if s != [] && IsTrimmable(s[0]) then TrimStart(s[1..]) else s
  }

  /** Strips trailing white space. */
  function TrimEnd(s: string): (r: string)
    ensures |r| <= |s|
  {
    if s != [] && IsTrimmable(s[|s| - 1]) then TrimEnd(s[..|s| - 1]) else s
  }

  /** `String.prototype.trim`. */
  function Trim(s: string): (r: string)
    ensures |r| <= |s|
  {
    TrimEnd(TrimStart(s))
  }

  /** What `TrimStart` removes is white space, and what it leaves starts with none. */
  lemma {:induction false} TrimStartSpec(s: string)
    ensures var r := TrimStart(s);
      && |r| <= |s| && r == s[|s| - |r|..]
      && (forall i :: 0 <= i < |s| - |r| ==> IsTrimmable(s[i]))
      && (r != [] ==> !IsTrimmable(r[0]))
  {
    if s != [] && IsTrimmable(s[0]) {
      TrimStartSpec(s[1..]);
      var r := TrimStart(s);
      assert s[1..][|s| - 1 - |r|..] == s[|s| - |r|..];
    }
  }

  /** What `TrimEnd` removes is white space, and what it leaves ends with none. */
  lemma {:induction false} TrimEndSpec(s: string)
    ensures var r := TrimEnd(s);
      && |r| <= |s| && r == s[..|r|]
      && (forall i :: |r| <= i < |s| ==> IsTrimmable(s[i]))
      && (r != [] ==> !IsTrimmable(r[|r| - 1]))
  {
    if s != [] && IsTrimmable(s[|s| - 1]) {
      TrimEndSpec(s[..|s| - 1]);
      var r := TrimEnd(s);
      assert s[..|s| - 1][..|r|] == s[..|r|];
    }
  }

  /** The trimmed string neither starts nor ends with white space, and is empty exactly when the input is all white space. */
  lemma TrimSpec(s: string)
    ensures var r := Trim(s);
      && (r != [] ==> !IsTrimmable(r[0]) && !IsTrimmable(r[|r| - 1]))
      && ((forall i :: 0 <= i < |s| ==> IsTrimmable(s[i])) <==> r == [])
  {
    var t := TrimStart(s);
    TrimStartSpec(s);
    TrimEndSpec(t);
    var r := TrimEnd(t);
    assert r != [] ==> r[0] == t[0];
    assert t == s[|s| - |t|..];
  }

  /** The result of `trim` is a contiguous part of the input, with only white space cut at either end. */
  lemma TrimIsInnerSlice(s: string)
    ensures var off := |s| - |TrimStart(s)|;
      && off + |Trim(s)| <= |s|
      && Trim(s) == s[off..off + |Trim(s)|]
      && (forall i :: 0 <= i < off ==> IsTrimmable(s[i]))
      && (forall i :: off + |Trim(s)| <= i < |s| ==> IsTrimmable(s[i]))
  {
    var t := TrimStart(s);
    var off := |s| - |t|;
    var r := TrimEnd(t);
    TrimStartSpec(s);
    TrimEndSpec(t);
    assert r == t[..|r|];
    assert t == s[off..];
    forall i | off + |r| <= i < |s| ensures IsTrimmable(s[i]) {
      assert s[i] == t[i - off];
    }
  }

  /** Trimming twice is trimming once. */
  lemma TrimIdempotent(s: string)
    ensures Trim(Trim(s)) == Trim(s)
  {
    var r := Trim(s);
    TrimSpec(s);
    if r != [] {
      assert TrimStart(r) == r;
      assert TrimEnd(r) == r;
    }
  }

  /** `sub` occurs in `s` at index `i`. */
  predicate OccursAt(s: string, sub: string, i: int) {
    0 <= i && i + |sub| <= |s| && s[i..i + |sub|] == sub
  }

  /** `String.prototype.includes`: `sub` occurs somewhere in `s`. */
  function Contains(s: string, sub: string): bool {
    exists i | 0 <= i <= |s| - |sub| :: OccursAt(s, sub, i)
  }

  /** The lines of `s` joined back with '\n' separators. */
  function JoinLines(lines: seq<string>): string
    requires lines != []
  {
    if |lines| == 1 then lines[0] else lines[0] + "\n" + JoinLines(lines[1..])
  }

  /** The index of the first '\n' in `s`, or |s| when there is none. */
  function LineEnd(s: string): (i: nat)
    ensures i <= |s| && '\n' !in s[..i]
    ensures i < |s| ==> s[i] == '\n'
  {
    if s == [] || s[0] == '\n' then 0 else 1 + LineEnd(s[1..])
  }

  /**
   * `s.split('\n')`: the pieces contain no '\n' and joining them with '\n'
   * gives `s` back, which determines them; there is always at least one piece.
   */
  function SplitLines(s: string): (lines: seq<string>)
    ensures lines != []
    ensures forall l <- lines :: '\n' !in l
    ensures JoinLines(lines) == s
    decreases |s|
  {
    var i := LineEnd(s);
    if i == |s| then
      assert s[..i] == s;
      [s]
    else
      var rest := SplitLines(s[i + 1..]);
      assert s == s[..i] + "\n" + s[i + 1..];
      [s[..i]] + rest
  }

  /** The first '\n' of `s` is at `i` when the part before it has none. */
  lemma {:induction false} LineEndAt(s: string, i: nat)
    requires i <= |s| && '\n' !in s[..i]
    requires i < |s| ==> s[i] == '\n'
    ensures LineEnd(s) == i
  {
    if i > 0 {
      assert s[0] == s[..i][0];
      assert s[1..][..i - 1] == s[..i][1..];
      LineEndAt(s[1..], i - 1);
    }
  }

  /** Splitting pieces joined with '\n' gives them back, when none of them contains '\n'. */
  lemma {:induction false} SplitJoin(lines: seq<string>)
    requires lines != []
    requires forall l <- lines :: '\n' !in l
    ensures SplitLines(JoinLines(lines)) == lines
  {
    var s := JoinLines(lines);
    var head := lines[0];
    assert '\n' !in head;
    if |lines| == 1 {
      assert s[..|head|] == s == head;
      LineEndAt(s, |head|);
    } else {
      var rest := JoinLines(lines[1..]);
      assert s == head + "\n" + rest;
      assert s[..|head|] == head;
      LineEndAt(s, |head|);
      assert s[|head| + 1..] == rest;
      assert forall l <- lines[1..] :: '\n' !in l;
      SplitJoin(lines[1..]);
      assert lines == [head] + lines[1..];
    }
  }
}
