/** The JavaScript string operations the chat front-ends rely on:
    String.prototype.includes / startsWith / split / trim and Array.prototype.join,
    each written the way the ECMAScript algorithm scans its input. */
module JsStrings {
  import opened JsValues

  /** WhiteSpace and LineTerminator code points, the characters String.prototype.trim removes. */
  predicate IsWhitespace(c: char) {
    var n := c as int;
    (9 <= n <= 13) || n == 32 || n == 0xA0 || n == 0x1680 || (0x2000 <= n <= 0x200A)
    || n == 0x2028 || n == 0x2029 || n == 0x202F || n == 0x205F || n == 0x3000 || n == 0xFEFF
  }

  /** Every character of s is white space (the empty string included). */
  predicate IsBlank(s: string) {
    forall i :: 0 <= i < |s| ==> IsWhitespace(s[i])
  }

  /** Neither end of s is white space. */
  predicate IsTrimmed(s: string) {
    s == [] || (!IsWhitespace(s[0]) && !IsWhitespace(s[|s| - 1]))
  }

  /** t occurs in s starting at index i. */
  predicate OccursAt(s: string, t: string, i: int) {
    0 <= i && i + |t| <= |s| && s[i..i + |t|] == t
  }

  /** String.prototype.startsWith */
  predicate StartsWith(s: string, prefix: string) {
    |prefix| <= |s| && s[..|prefix|] == prefix
  }

  /** String.prototype.indexOf(t, from): the first occurrence of t at or after `from`. */
  function IndexFrom(s: string, t: string, from: nat): (r: Option<nat>)
    requires from <= |s|
    ensures r.Some? ==> from <= r.value && OccursAt(s, t, r.value)
    ensures r.Some? ==> forall j :: from <= j < r.value ==> !OccursAt(s, t, j)
    ensures r.None? ==> forall j :: from <= j ==> !OccursAt(s, t, j)
    decreases |s| - from
  {
    if from + |t| > |s| then None
    else if s[from..from + |t|] == t then Some(from)
    else IndexFrom(s, t, from + 1)
  }

  /** String.prototype.includes: true exactly when t occurs somewhere in s. */
  function Contains(s: string, t: string): (r: bool)
    ensures r <==> exists i :: OccursAt(s, t, i)
  {
    IndexFrom(s, t, 0).Some?
  }

  /** The index IndexFrom finds is the one whose left neighbours hold no occurrence. */
  lemma FirstOccurrence(s: string, t: string, i: nat)
    requires OccursAt(s, t, i)
    requires forall j :: j < i ==> !OccursAt(s, t, j)
    ensures IndexFrom(s, t, 0) == Some(i)
  {
  }

  /** String.prototype.split with a non-empty separator: the pieces between
      successive left-to-right, non-overlapping occurrences of sep. */
  function Split(s: string, sep: string): (parts: seq<string>)
    requires sep != []
    ensures |parts| >= 1
    decreases |s|
  {
    match IndexFrom(s, sep, 0)
    case None => [s]
    case Some(i) => [s[..i]] + Split(s[i + |sep|..], sep)
  }

  /** Array.prototype.join */
  function Join(parts: seq<string>, sep: string): string {
    if |parts| == 0 then ""
    else if |parts| == 1 then parts[0]
    else parts[0] + sep + Join(parts[1..], sep)
  }

  /** Array.prototype.map applied to split: each line cut at sep. */
  function SplitEach(lines: seq<string>, sep: string): (rows: seq<seq<string>>)
    requires sep != []
    ensures |rows| == |lines|
    ensures forall i :: 0 <= i < |lines| ==> rows[i] == Split(lines[i], sep)
  {
    if lines == [] then [] else [Split(lines[0], sep)] + SplitEach(lines[1..], sep)
  }

  /** Array.prototype.map applied to join: each row glued with sep. */
  function JoinEach(rows: seq<seq<string>>, sep: string): (lines: seq<string>)
    ensures |lines| == |rows|
    ensures forall i :: 0 <= i < |rows| ==> lines[i] == Join(rows[i], sep)
  {
    if rows == [] then [] else [Join(rows[0], sep)] + JoinEach(rows[1..], sep)
  }

  /** s with every `from` character replaced by `to`. */
  function ReplaceChar(s: string, from: char, to: char): string {
    seq(|s|, i requires 0 <= i < |s| => if s[i] == from then to else s[i])
  }

  /** TrimStart: the suffix left after dropping leading white space. */
  function TrimStart(s: string): (r: string)
    ensures |r| <= |s| && r == s[|s| - |r|..]
    ensures IsBlank(s[..|s| - |r|])
    ensures r == [] || !IsWhitespace(r[0])
    decreases |s|
  {
    if |s| > 0 && IsWhitespace(s[0]) then
      var r := TrimStart(s[1..]);
      TrimStartStep(s, r);
      r
    else
      assert s[..0] == [];
      s
  }

  /** A white-space first character joins the blank prefix TrimStart drops from the rest. */
  lemma TrimStartStep(s: string, r: string)
    requires |s| > 0 && IsWhitespace(s[0])
    requires |r| <= |s| - 1 && r == s[1..][|s| - 1 - |r|..] && IsBlank(s[1..][..|s| - 1 - |r|])
    ensures r == s[|s| - |r|..] && IsBlank(s[..|s| - |r|])
  {
    var n := |s| - |r|;
    assert s[1..][n - 1..] == s[n..];
    forall k | 0 <= k < n ensures IsWhitespace(s[..n][k]) {
      if k > 0 {
        assert s[..n][k] == s[1..][..n - 1][k - 1];
      }
    }
  }

  /** TrimEnd: the prefix left after dropping trailing white space. */
  function TrimEnd(s: string): (r: string)
    ensures |r| <= |s| && r == s[..|r|]
    ensures IsBlank(s[|r|..])
    ensures r == [] || !IsWhitespace(r[|r| - 1])
    decreases |s|
  {
    if |s| > 0 && IsWhitespace(s[|s| - 1]) then
      var r := TrimEnd(s[..|s| - 1]);
      TrimEndStep(s, r);
      r
    else
      assert s[|s|..] == [];
      s
  }

  /** A white-space last character joins the blank suffix TrimEnd drops from the rest. */
  lemma TrimEndStep(s: string, r: string)
    requires |s| > 0 && IsWhitespace(s[|s| - 1])
    requires |r| <= |s| - 1 && r == s[..|s| - 1][..|r|] && IsBlank(s[..|s| - 1][|r|..])
    ensures r == s[..|r|] && IsBlank(s[|r|..])
  {
    var n := |r|;
    assert s[..|s| - 1][..n] == s[..n];
    forall k | n <= k < |s| ensures IsWhitespace(s[k]) {
      if k < |s| - 1 {
        assert s[k] == s[..|s| - 1][n..][k - n];
      }
    }
    assert forall k :: 0 <= k < |s| - n ==> s[n..][k] == s[n + k];
  }

  /** String.prototype.trim */
  function Trim(s: string): string {
    TrimEnd(TrimStart(s))
  }

  // ---------------------------------------------------------------------------
  // Trim

  /** trim() yields "" exactly for the all-white-space strings, which is what
      the `!input.trim()` guards test. */
  lemma TrimEmptyIffBlank(s: string)
    ensures Trim(s) == [] <==> IsBlank(s)
  {
    var a := TrimStart(s);
    var r := TrimEnd(a);
    if r == [] {
      assert a[0..] == a;
      assert a == [];
      assert s[..|s|] == s;
    } else {
      assert r[0] == a[0];
      assert a[0] == s[|s| - |a|];
    }
  }

  /** trim() is the substring between a white-space prefix and a white-space
      suffix, and neither of its ends is white space. */
  lemma TrimIsInnerSubstring(s: string)
    ensures IsTrimmed(Trim(s))
    ensures exists i, j :: 0 <= i <= j <= |s| && Trim(s) == s[i..j] && IsBlank(s[..i]) && IsBlank(s[j..])
  {
    TrimEndsNotWhitespace(s);
    var a := TrimStart(s);
    var r := TrimEnd(a);
    var i := |s| - |a|;
    TrimWindow(s, a, r, i);
  }

  /** Neither end of trim()'s result is white space. */
  lemma TrimEndsNotWhitespace(s: string)
    ensures IsTrimmed(Trim(s))
  {
    var a := TrimStart(s);
    var r := TrimEnd(a);
    if r != [] {
      assert r[0] == a[0];
    }
  }

  /** The window trim() keeps, between blank ends: a blank prefix cut off s, then a
      blank suffix cut off what is left. */
  lemma TrimWindow(s: string, a: string, r: string, i: nat)
    requires i <= |s| && a == s[i..] && IsBlank(s[..i])
    requires |r| <= |a| && r == a[..|r|] && IsBlank(a[|r|..])
    ensures i + |r| <= |s| && r == s[i..i + |r|] && IsBlank(s[..i]) && IsBlank(s[i + |r|..])
  {
    var j := i + |r|;
    assert r == s[i..j] by { assert a[..|r|] == s[i..j]; }
    assert s[j..] == a[|r|..];
  }

  /** Text already without white space at either end is left unchanged by trim(). */
  lemma TrimmedIsFixed(s: string)
    requires IsTrimmed(s)
    ensures Trim(s) == s
  {
    if s != [] {
      assert TrimStart(s) == s;
    }
  }

  // ---------------------------------------------------------------------------
  // split and join

  /** The pieces produced by split glue back with the separator into the original text. */
  lemma {:induction false} SplitThenJoin(s: string, sep: string)
    requires sep != []
    ensures Join(Split(s, sep), sep) == s
    decreases |s|
  {
    var r := IndexFrom(s, sep, 0);
    if r.Some? {
      var i := r.value;
      var rest := s[i + |sep|..];
      SplitStep(s, sep, i);
      SplitThenJoin(rest, sep);
      JoinCons(s[..i], Split(rest, sep), sep);
    }
  }

  /** One step of split: the piece before the first occurrence, then the split of the rest. */
  lemma SplitStep(s: string, sep: string, i: nat)
    requires sep != [] && IndexFrom(s, sep, 0) == Some(i)
    ensures Split(s, sep) == [s[..i]] + Split(s[i + |sep|..], sep)
    ensures s == s[..i] + sep + s[i + |sep|..]
    ensures forall j :: j < i ==> !OccursAt(s, sep, j)
  {
    assert s == s[..i] + s[i..i + |sep|] + s[i + |sep|..];
  }

  /** Joining a first piece in front of at least one more piece puts sep between them. */
  lemma JoinCons(x: string, tail: seq<string>, sep: string)
    requires |tail| >= 1
    ensures Join([x] + tail, sep) == x + sep + Join(tail, sep)
  {
    assert ([x] + tail)[1..] == tail;
  }

  /** No piece produced by split contains the separator. */
  lemma {:induction false} SplitPiecesAvoidSeparator(s: string, sep: string)
    requires sep != []
    ensures forall k :: 0 <= k < |Split(s, sep)| ==> !Contains(Split(s, sep)[k], sep)
    decreases |s|
  {
    var r := IndexFrom(s, sep, 0);
    if r.Some? {
      var i := r.value;
      var rest := s[i + |sep|..];
      SplitStep(s, sep, i);
      SplitPiecesAvoidSeparator(rest, sep);
      var parts := Split(s, sep);
      forall j ensures !OccursAt(s[..i], sep, j) {
        if 0 <= j && j + |sep| <= i {
          assert !OccursAt(s, sep, j);
          assert s[..i][j..j + |sep|] == s[j..j + |sep|];
        }
      }
      forall k | 0 <= k < |parts| ensures !Contains(parts[k], sep) {
        if k > 0 { assert parts[k] == Split(rest, sep)[k - 1]; }
      }
    }
  }

  /** A string holding no occurrence of sep splits into itself alone. */
  lemma SplitWithoutSeparator(s: string, sep: string)
    requires sep != [] && !Contains(s, sep)
    ensures Split(s, sep) == [s]
  {
  }

  /** When the only occurrence of sep that starts inside a + sep is the one right
      after a, split cuts a + sep + rest exactly after a. */
  lemma SplitAfter(a: string, sep: string, rest: string)
    requires sep != []
    requires forall j :: j < |a| ==> !OccursAt(a + sep, sep, j)
    ensures Split(a + sep + rest, sep) == [a] + Split(rest, sep)
  {
    var s := a + sep + rest;
    forall j | j < |a| ensures !OccursAt(s, sep, j) {
      if 0 <= j {
        assert !OccursAt(a + sep, sep, j);
        assert s[j..j + |sep|] == (a + sep)[j..j + |sep|];
      }
    }
    assert s[|a|..|a| + |sep|] == sep;
    FirstOccurrence(s, sep, |a|);
    assert s[..|a|] == a;
    assert s[|a| + |sep|..] == rest;
  }

  /** The character at index k of sep appears nowhere else in sep. */
  predicate MarkedAt(sep: string, k: nat) {
    k < |sep| && forall m :: 0 <= m < |sep| && m != k ==> sep[m] != sep[k]
  }

  /** A piece without the marker character of sep meets no occurrence of sep
      before its own end, even one straddling into the separator after it. */
  lemma MarkerBlocksOccurrence(p: string, sep: string, k: nat)
    requires MarkedAt(sep, k) && sep[k] !in p
    ensures forall j :: j < |p| ==> !OccursAt(p + sep, sep, j)
    ensures !Contains(p, sep)
  {
    forall j | 0 <= j < |p| ensures !OccursAt(p + sep, sep, j) {
      var s := p + sep;
      assert s[j + k] != sep[k] by {
        if j + k < |p| {
          assert s[j + k] == p[j + k];
        } else {
          assert s[j + k] == sep[j + k - |p|];
        }
      }
      assert s[j..j + |sep|][k] == s[j + k];
    }
    forall j | 0 <= j && j + |sep| <= |p| ensures !OccursAt(p, sep, j) {
      assert p[j..j + |sep|][k] == p[j + k];
    }
  }

  /** Joining pieces that avoid the marker character of the separator and splitting
      again gives back the same pieces: the round trip of the tab/line tables. */
  lemma {:induction false} JoinThenSplit(parts: seq<string>, sep: string, k: nat)
    requires |parts| >= 1 && MarkedAt(sep, k)
    requires forall i :: 0 <= i < |parts| ==> sep[k] !in parts[i]
    ensures Split(Join(parts, sep), sep) == parts
    decreases |parts|
  {
    MarkerBlocksOccurrence(parts[0], sep, k);
    if |parts| == 1 {
      SplitWithoutSeparator(parts[0], sep);
    } else {
      JoinThenSplit(parts[1..], sep, k);
      SplitAfter(parts[0], sep, Join(parts[1..], sep));
    }
  }

  /** The one-character separator [c] is marked by its only character. */
  lemma SingleCharMarked(c: char)
    ensures MarkedAt([c], 0)
  {
  }

  /** No one-character occurrence before i means no such character before i. */
  lemma CharAbsentBefore(s: string, c: char, i: nat)
    requires i <= |s| && forall j :: j < i ==> !OccursAt(s, [c], j)
    ensures forall j :: 0 <= j < i ==> s[j] != c
  {
    forall j | 0 <= j < i ensures s[j] != c {
      assert !OccursAt(s, [c], j);
      assert s[j..j + 1] == [s[j]];
    }
  }

  /** Replacing a character that does not occur changes nothing. */
  lemma ReplaceAbsent(s: string, c: char, d: char)
    requires forall j :: 0 <= j < |s| ==> s[j] != c
    ensures ReplaceChar(s, c, d) == s
  {
  }

  /** Replacement around the first occurrence of c, at i. */
  lemma ReplaceAround(s: string, i: nat, c: char, d: char)
    requires i < |s| && s[i] == c && forall j :: 0 <= j < i ==> s[j] != c
    ensures ReplaceChar(s, c, d) == s[..i] + [d] + ReplaceChar(s[i + 1..], c, d)
  {
  }

  /** split on one character then join with another is character replacement. */
  lemma {:induction false} JoinSplitReplaces(s: string, c: char, d: char)
    ensures Join(Split(s, [c]), [d]) == ReplaceChar(s, c, d)
    decreases |s|
  {
    var r := IndexFrom(s, [c], 0);
    if r.None? {
      CharAbsentBefore(s, c, |s|);
      ReplaceAbsent(s, c, d);
    } else {
      var i := r.value;
      var rest := s[i + 1..];
      SplitStep(s, [c], i);
      CharAbsentBefore(s, c, i);
      assert s[i] == c by { assert s[i..i + 1] == [c]; }
      ReplaceAround(s, i, c, d);
      JoinSplitReplaces(rest, c, d);
      JoinCons(s[..i], Split(rest, [c]), [d]);
    }
  }

  /** Replacing a character that is not part of sep commutes with join. */
  lemma {:induction false} ReplaceDistributesOverJoin(parts: seq<string>, sep: string, c: char, d: char)
    requires c !in sep
    ensures ReplaceChar(Join(parts, sep), c, d) == Join(JoinEach(SplitEach(parts, [c]), [d]), sep)
    decreases |parts|
  {
    if |parts| == 0 {
    } else {
      JoinSplitReplaces(parts[0], c, d);
      var mapped := JoinEach(SplitEach(parts, [c]), [d]);
      assert mapped[0] == ReplaceChar(parts[0], c, d);
      if |parts| > 1 {
        ReplaceDistributesOverJoin(parts[1..], sep, c, d);
        assert mapped[1..] == JoinEach(SplitEach(parts[1..], [c]), [d]);
        assert ReplaceChar(sep, c, d) == sep;
        var x, y := parts[0], Join(parts[1..], sep);
        assert ReplaceChar(x + sep + y, c, d) == ReplaceChar(x, c, d) + ReplaceChar(sep, c, d) + ReplaceChar(y, c, d);
      }
    }
  }

  /** Parts free of c joined with a separator free of c are free of c. */
  lemma {:induction false} JoinAvoids(parts: seq<string>, sep: string, c: char)
    requires c !in sep && forall p :: p in parts ==> c !in p
    ensures c !in Join(parts, sep)
    decreases |parts|
  {
    if |parts| > 1 {
      JoinAvoids(parts[1..], sep, c);
    }
  }

  /** A one-character text occurs exactly where that character does. */
  lemma AbsentCharNotContained(s: string, c: char)
    requires c !in s
    ensures !Contains(s, [c])
  {
    forall i | 0 <= i < |s| ensures !OccursAt(s, [c], i) {
      assert s[i] in s;
      assert s[i..i + 1] == [s[i]];
    }
  }

  /** A text that cannot start inside a prefix occurs in prefix + d only where it occurs in d. */
  lemma NotContainedAfterPrefix(p: string, d: string, t: string)
    requires t != [] && t[0] !in p && !Contains(d, t)
    ensures !Contains(p + d, t)
  {
    var s := p + d;
    forall i | 0 <= i && i + |t| <= |s| ensures !OccursAt(s, t, i) {
      if i < |p| {
        assert p[i] in p;
        assert s[i] == p[i] && s[i..i + |t|][0] == s[i];
      } else {
        assert !OccursAt(d, t, i - |p|);
        assert s[i..i + |t|] == d[i - |p|..i - |p| + |t|];
      }
    }
  }

  /** An occurrence in a text is still there once more text is appended. */
  lemma ContainedBeforeSuffix(a: string, b: string, t: string)
    requires Contains(a, t)
    ensures Contains(a + b, t)
  {
    var i :| OccursAt(a, t, i);
    assert (a + b)[i..i + |t|] == a[i..i + |t|];
    assert OccursAt(a + b, t, i);
  }
}
