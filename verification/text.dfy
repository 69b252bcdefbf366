/** The JavaScript string operations the application relies on:
    `startsWith`, `includes`, `replace` with a string pattern, `toLowerCase`
    (ASCII letters only), `trim` and `split` on one separator character. */
module Text {
  import opened Wrappers

  // ---------------------------------------------------------------------------
  // Prefixes and substrings
  // ---------------------------------------------------------------------------

  predicate StartsWith(s: string, prefix: string) {
    |prefix| <= |s| && s[..|prefix|] == prefix
  }

  /** `pat` occurs in `s` starting at index `k`. */
  predicate OccursAt(s: string, pat: string, k: int) {
    0 <= k && k + |pat| <= |s| && s[k..k + |pat|] == pat
  }

  /** `s.includes(pat)` */
  predicate Contains(s: string, pat: string) {
    exists k | 0 <= k <= |s| - |pat| :: OccursAt(s, pat, k)
  }

  /** A string that contains `pat` still contains it with anything added on
      either side. */
  lemma ContainsWithin(front: string, s: string, back: string, pat: string)
    requires Contains(s, pat)
    ensures Contains(front + s + back, pat)
  {
    var k :| 0 <= k <= |s| - |pat| && OccursAt(s, pat, k);
    var t := front + s + back;
    assert t[|front| + k..|front| + k + |pat|] == s[k..k + |pat|];
    assert OccursAt(t, pat, |front| + k);
  }

  /** Every string contains itself. */
  lemma ContainsSelf(s: string)
    ensures Contains(s, s)
  {
    assert OccursAt(s, s, 0);
  }

  /** A string none of whose candidate start positions holds `pat`'s first
      character does not contain `pat`. */
  lemma NotContainsByFirstChar(s: string, pat: string)
    requires |pat| > 0
    requires forall k | 0 <= k <= |s| - |pat| :: s[k] != pat[0]
    ensures !Contains(s, pat)
  {
    forall k | 0 <= k <= |s| - |pat|
      ensures !OccursAt(s, pat, k)
    {
      assert s[k] != pat[0];
    }
  }

  /** The first index at or after `from` where `pat` occurs (`indexOf`). */
  function IndexOf(s: string, pat: string, from: nat): (r: Option<nat>)
    ensures r.Some? ==> from <= r.value && OccursAt(s, pat, r.value)
    ensures r.Some? ==> forall k :: from <= k < r.value ==> !OccursAt(s, pat, k)
    ensures r.None? ==> forall k :: from <= k ==> !OccursAt(s, pat, k)
    decreases |s| - from
  {
    if from + |pat| > |s| then None
    else if s[from..from + |pat|] == pat then Some(from)
    else IndexOf(s, pat, from + 1)
  }

  /** `s.replace(pat, rep)` with a string pattern: only the first occurrence
      is replaced; without one the string is returned unchanged. */
  function ReplaceFirst(s: string, pat: string, rep: string): string {
    match IndexOf(s, pat, 0)
    case None => s
    case Some(k) => s[..k] + rep + s[k + |pat|..]
  }

  /** When `s` starts with `pat`, replacing the first `pat` by nothing strips
      the prefix. */
  lemma ReplaceFirstOfPrefix(s: string, pat: string)
    requires StartsWith(s, pat)
    ensures ReplaceFirst(s, pat, "") == s[|pat|..]
  {
    assert OccursAt(s, pat, 0);
  }

  // ---------------------------------------------------------------------------
  // Case mapping (ASCII)
  // ---------------------------------------------------------------------------

  function LowerChar(c: char): char {
    if 'A' <= c <= 'Z' then (c as int + 32) as char else c
  }

  function Lower(s: string): string {
    seq(|s|, i requires 0 <= i < |s| => LowerChar(s[i]))
  }

  /** Two strings are equal under `toLowerCase`. */
  predicate SameIgnoringCase(a: string, b: string) {
    Lower(a) == Lower(b)
  }

  // ---------------------------------------------------------------------------
  // Trimming
  // ---------------------------------------------------------------------------

  /** The characters `String.prototype.trim` removes: ECMAScript WhiteSpace
      (tab, vertical tab, form feed, space, no-break space, byte-order mark and
      the Unicode space separators) and LineTerminator (LF, CR, LS, PS). */
  predicate IsJsWhitespace(c: char) {
    var n := c as int;
    n == 0x09 || n == 0x0A || n == 0x0B || n == 0x0C || n == 0x0D || n == 0x20
    || n == 0xA0 || n == 0x1680 || (0x2000 <= n <= 0x200A)
    || n == 0x2028 || n == 0x2029 || n == 0x202F || n == 0x205F
    || n == 0x3000 || n == 0xFEFF
  }

  predicate AllWhitespace(s: string) {
    forall i | 0 <= i < |s| :: IsJsWhitespace(s[i])
  }

  /** Neither end of `s` is whitespace. */
  predicate IsTrimmed(s: string) {
    |s| == 0 || (!IsJsWhitespace(s[0]) && !IsJsWhitespace(s[|s| - 1]))
  }

  function TrimStart(s: string): (r: string)
    ensures |r| <= |s| && r == s[|s| - |r|..]
    ensures AllWhitespace(s[..|s| - |r|])
    ensures |r| == 0 || !IsJsWhitespace(r[0])
    decreases |s|
  {
    if |s| > 0 && IsJsWhitespace(s[0]) then
      var r := TrimStart(s[1..]);
      assert s[1..][..|s| - 1 - |r|] == s[1..|s| - |r|];
      r
    else s
  }

  function TrimEnd(s: string): (r: string)
    ensures |r| <= |s| && r == s[..|r|]
    ensures AllWhitespace(s[|r|..])
    ensures |r| == 0 || !IsJsWhitespace(r[|r| - 1])
    decreases |s|
  {
    if |s| > 0 && IsJsWhitespace(s[|s| - 1]) then
      var r := TrimEnd(s[..|s| - 1]);
      assert s[..|s| - 1][|r|..] == s[|r|..|s| - 1];
      WhitespaceSnoc(s, |r|);
      r
    else s
  }

  /** A whitespace run that reaches the last character but one, followed by
      a whitespace last character, reaches the end. */
  lemma WhitespaceSnoc(s: string, k: int)
    requires 0 <= k < |s| && AllWhitespace(s[k..|s| - 1]) && IsJsWhitespace(s[|s| - 1])
    ensures AllWhitespace(s[k..])
  {
    forall m | 0 <= m < |s| - k
      ensures IsJsWhitespace(s[k..][m])
    {
      if m < |s| - 1 - k {
        assert s[k..][m] == s[k..|s| - 1][m];
      }
    }
  }

  /** `r` is the slice of `s` at offset `i` and only whitespace lies on
      either side of it. */
  predicate SliceBetweenWhitespace(s: string, r: string, i: int) {
    0 <= i <= |s| - |r| && r == s[i..i + |r|]
    && AllWhitespace(s[..i]) && AllWhitespace(s[i + |r|..])
  }

  /** `s.trim()`: the result is a trimmed slice of `s` and everything cut away
      on either side is whitespace. */
  function Trim(s: string): (r: string)
    ensures IsTrimmed(r)
    ensures exists i :: SliceBetweenWhitespace(s, r, i)
  {
    var t := TrimStart(s);
    var r := TrimEnd(t);
    var i := |s| - |t|;
    assert r == s[i..i + |r|];
    assert s[i + |r|..] == t[|r|..];
    assert SliceBetweenWhitespace(s, r, i);
    r
  }

  /** A string with no whitespace at either end is its own trim. */
  lemma TrimOfTrimmed(s: string)
    requires IsTrimmed(s)
    ensures Trim(s) == s
  {
  }

  /** Trimming is idempotent. */
  lemma TrimIdempotent(s: string)
    ensures Trim(Trim(s)) == Trim(s)
  {
    TrimOfTrimmed(Trim(s));
  }

  /** A string made only of whitespace trims to the empty string. */
  lemma {:induction false} TrimOfWhitespace(s: string)
    requires AllWhitespace(s)
    ensures Trim(s) == ""
  {
    TrimStartOfWhitespace(s);
  }

  /** Two whitespace-only halves make a whitespace-only string. */
  lemma WhitespaceHalves(s: string, i: int)
    requires 0 <= i <= |s| && AllWhitespace(s[..i]) && AllWhitespace(s[i..])
    ensures AllWhitespace(s)
  {
    forall k | 0 <= k < |s|
      ensures IsJsWhitespace(s[k])
    {
      if k < i {
        assert s[..i][k] == s[k];
      } else {
        assert s[i..][k - i] == s[k];
      }
    }
  }

  /** No non-whitespace character lies inside a whitespace-only prefix. */
  lemma AfterWhitespacePrefix(s: string, a: int, b: int)
    requires 0 <= a <= |s| && AllWhitespace(s[..a])
    requires 0 <= b < |s| && !IsJsWhitespace(s[b])
    ensures a <= b
  {
  }

  /** No non-whitespace character lies inside a whitespace-only suffix. */
  lemma BeforeWhitespaceSuffix(s: string, e: int, b: int)
    requires 0 <= e <= |s| && AllWhitespace(s[e..])
    requires 0 <= b < |s| && !IsJsWhitespace(s[b])
    ensures b < e
  {
  }

  /** The trim is empty exactly when the string is whitespace only. */
  lemma TrimEmptyIffWhitespace(s: string)
    ensures Trim(s) == "" <==> AllWhitespace(s)
  {
    if AllWhitespace(s) {
      TrimOfWhitespace(s);
    } else if Trim(s) == "" {
      var i :| SliceBetweenWhitespace(s, "", i);
      WhitespaceHalves(s, i);
    }
  }

  /** A trimmed slice with only whitespace around it is the trim: `trim`
      has exactly one possible answer. */
  lemma TrimOfSlice(s: string, r: string, i: int)
    requires SliceBetweenWhitespace(s, r, i) && IsTrimmed(r)
    ensures Trim(s) == r
  {
    var t := Trim(s);
    var j :| SliceBetweenWhitespace(s, t, j);
    TrimEmptyIffWhitespace(s);
    if r == "" {
      WhitespaceHalves(s, i);
    } else {
      SliceEnds(s, r, i);
      SameSlice(s, r, i, t, j);
    }
  }

  /** The ends of a non-empty trimmed slice are characters of `s` that are
      not whitespace. */
  lemma SliceEnds(s: string, r: string, i: int)
    requires SliceBetweenWhitespace(s, r, i) && IsTrimmed(r) && r != ""
    ensures !IsJsWhitespace(s[i]) && !IsJsWhitespace(s[i + |r| - 1])
  {
    assert s[i] == r[0] && s[i + |r| - 1] == r[|r| - 1];
  }

  /** Two non-empty trimmed slices with only whitespace around them are the
      same slice. */
  lemma SameSlice(s: string, r: string, i: int, t: string, j: int)
    requires SliceBetweenWhitespace(s, r, i) && IsTrimmed(r) && r != ""
    requires SliceBetweenWhitespace(s, t, j) && IsTrimmed(t) && t != ""
    ensures r == t
  {
    SliceEnds(s, r, i);
    SliceEnds(s, t, j);
    AfterWhitespacePrefix(s, j, i);
    AfterWhitespacePrefix(s, i, j);
    BeforeWhitespaceSuffix(s, j + |t|, i + |r| - 1);
    BeforeWhitespaceSuffix(s, i + |r|, j + |t| - 1);
  }

  /** Whitespace added around a trimmed string is what `trim` removes. */
  lemma PaddedTrim(front: string, s: string, back: string)
    requires AllWhitespace(front) && AllWhitespace(back) && IsTrimmed(s)
    ensures Trim(front + s + back) == s
  {
    var whole := front + s + back;
    assert whole[..|front|] == front;
    assert whole[|front| + |s|..] == back;
    assert whole[|front|..|front| + |s|] == s;
    TrimOfSlice(whole, s, |front|);
  }

  lemma {:induction false} TrimStartOfWhitespace(s: string)
    requires AllWhitespace(s)
    ensures TrimStart(s) == ""
    decreases |s|
  {
    if |s| > 0 {
      assert IsJsWhitespace(s[0]);
      TrimStartOfWhitespace(s[1..]);
    }
  }

  // ---------------------------------------------------------------------------
  // Splitting on one character
  // ---------------------------------------------------------------------------

  /** `s.split(sep)` for a one-character separator: always at least one piece,
      no piece contains the separator. */
  function Split(s: string, sep: char): (parts: seq<string>)
    ensures |parts| >= 1
    ensures forall k | 0 <= k < |parts| :: sep !in parts[k]
    decreases |s|
  {
    if |s| == 0 then [""]
    else
      var rest := Split(s[1..], sep);
      if s[0] == sep then [""] + rest
      else [[s[0]] + rest[0]] + rest[1..]
  }

  /** `parts.join(sep)` for a one-character separator. */
  function Join(parts: seq<string>, sep: char): string
    requires |parts| >= 1
    decreases |parts|
  {
    if |parts| == 1 then parts[0] else parts[0] + [sep] + Join(parts[1..], sep)
  }

  /** Joining the pieces back with the separator gives the original string. */
  lemma {:induction false} JoinSplit(s: string, sep: char)
    ensures Join(Split(s, sep), sep) == s
    decreases |s|
  {
    if |s| > 0 {
      var rest := Split(s[1..], sep);
      JoinSplit(s[1..], sep);
      if s[0] == sep {
        assert Split(s, sep)[1..] == rest;
      } else {
        var parts := Split(s, sep);
        if |rest| == 1 {
          assert parts == [[s[0]] + rest[0]];
        } else {
          assert parts[1..] == rest[1..];
          assert Join(rest, sep) == rest[0] + [sep] + Join(rest[1..], sep);
        }
      }
    }
  }

  /** Splitting a join of separator-free pieces gives the pieces back. */
  lemma {:induction false} SplitJoin(parts: seq<string>, sep: char)
    requires |parts| >= 1
    requires forall k | 0 <= k < |parts| :: sep !in parts[k]
    ensures Split(Join(parts, sep), sep) == parts
    decreases |parts|
  {
    if |parts| == 1 {
      SplitOfPlain(parts[0], sep);
    } else {
      SplitAfterPiece(parts[0], sep, Join(parts[1..], sep));
      SplitJoin(parts[1..], sep);
    }
  }

  /** A string without the separator splits into itself. */
  lemma {:induction false} SplitOfPlain(s: string, sep: char)
    requires sep !in s
    ensures Split(s, sep) == [s]
    decreases |s|
  {
    if |s| > 0 {
      assert sep !in s[1..];
      SplitOfPlain(s[1..], sep);
      assert [s[0]] + s[1..] == s;
    }
  }

  /** A separator-free piece followed by the separator splits off as the
      first part. */
  lemma {:induction false} SplitAfterPiece(piece: string, sep: char, rest: string)
    requires sep !in piece
    ensures Split(piece + [sep] + rest, sep) == [piece] + Split(rest, sep)
    decreases |piece|
  {
    var s := piece + [sep] + rest;
    if |piece| == 0 {
      assert s == [sep] + rest;
      assert s[1..] == rest;
    } else {
      assert s[1..] == piece[1..] + [sep] + rest;
      assert sep !in piece[1..];
      SplitAfterPiece(piece[1..], sep, rest);
      assert [piece[0]] + piece[1..] == piece;
    }
  }
}
