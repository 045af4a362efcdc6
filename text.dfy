/**
 * The .NET string primitives the skill loader and the catalog rely on: `char.IsWhiteSpace`,
 * `string.IsNullOrWhiteSpace`, `Trim`/`TrimStart`/`TrimEnd`, `StartsWith`/`EndsWith` (ordinal),
 * `IndexOf(char)`, `Replace("\r\n", "\n")`, `Split(char)`, `string.Join` and
 * `StringComparison.OrdinalIgnoreCase`, each with the contract the rest of the model uses.
 */
module Text {

  /** `char.IsWhiteSpace`: U+0009..U+000D, U+0085 and the Unicode space, line and paragraph separators. */
  predicate IsWhiteSpace(c: char) {
    || ('\t' <= c <= '\r')
    || c == ' '
    || c == '\U{85}'
    || c == '\U{A0}'
    || c == '\U{1680}'
    || ('\U{2000}' <= c <= '\U{200A}')
    || c == '\U{2028}'
    || c == '\U{2029}'
    || c == '\U{202F}'
    || c == '\U{205F}'
    || c == '\U{3000}'
  }

  /** `string.IsNullOrWhiteSpace` on a non-null string: empty, or white space only. */
  predicate IsBlank(s: string) {
    forall i :: 0 <= i < |s| ==> IsWhiteSpace(s[i])
  }

  /** The end of the run of white space that starts at `i`. */
  function SkipWhiteSpace(s: string, i: nat): (r: nat)
    requires i <= |s|
    ensures i <= r <= |s|
    decreases |s| - i
  {
    if i < |s| && IsWhiteSpace(s[i]) then SkipWhiteSpace(s, i + 1) else i
  }

  /** The start of the run of white space that ends at `j`. */
  function SkipWhiteSpaceBack(s: string, j: nat): (r: nat)
    requires j <= |s|
    ensures r <= j
    decreases j
  {
    if j > 0 && IsWhiteSpace(s[j - 1]) then SkipWhiteSpaceBack(s, j - 1) else j
  }

  /** `TrimStart()`: drops the longest all-white-space prefix. */
  function TrimStart(s: string): string {
    s[SkipWhiteSpace(s, 0)..]
  }

  /** `TrimEnd()`: drops the longest all-white-space suffix. */
  function TrimEnd(s: string): string {
    s[..SkipWhiteSpaceBack(s, |s|)]
  }

  /** `Trim()`: both ends. */
  function Trim(s: string): string {
    TrimEnd(TrimStart(s))
  }

  /** `StartsWith(prefix, StringComparison.Ordinal)`. */
  predicate StartsWith(s: string, prefix: string) {
    |prefix| <= |s| && forall i :: 0 <= i < |prefix| ==> s[i] == prefix[i]
  }

  /** `EndsWith(suffix, StringComparison.Ordinal)`. */
  predicate EndsWith(s: string, suffix: string) {
    |suffix| <= |s| && forall i :: 0 <= i < |suffix| ==> s[|s| - |suffix| + i] == suffix[i]
  }

  /** `IndexOf(c)`: the first position of `c`, or -1. */
  function IndexOf(s: string, c: char): (r: int)
    ensures -1 <= r < |s|
    ensures 0 <= r ==> s[r] == c
    decreases |s|
  {
    if s == [] then -1
    else if s[0] == c then 0
    else
      var k := IndexOf(s[1..], c);
      if k < 0 then -1 else k + 1
  }

  /** The ordinal upper-casing that `OrdinalIgnoreCase` applies, restricted to ASCII letters. */
  function ToUpperOrdinal(c: char): char {
    if 'a' <= c <= 'z' then (c as int - 32) as char else c
  }

  function FoldCase(s: string): string {
    seq(|s|, i requires 0 <= i < |s| => ToUpperOrdinal(s[i]))
  }

  /** `string.Equals(a, b, StringComparison.OrdinalIgnoreCase)`. */
  predicate EqualsIgnoreCase(a: string, b: string) {
    |a| == |b| && forall i :: 0 <= i < |a| ==> ToUpperOrdinal(a[i]) == ToUpperOrdinal(b[i])
  }

  /** Number of occurrences of `c` in `s`. */
  function Count(c: char, s: string): nat
    decreases |s|
  {
    if s == [] then 0 else (if s[0] == c then 1 else 0) + Count(c, s[1..])
  }

  predicate ContainsCrLf(s: string) {
    exists i :: 0 <= i < |s| - 1 && s[i] == '\r' && s[i + 1] == '\n'
  }

  /** `Replace("\r\n", "\n", StringComparison.Ordinal)`: a left-to-right, non-overlapping rewrite. */
  function ReplaceCrLf(s: string): (r: string)
    ensures |r| <= |s|
    ensures Count('\n', r) == Count('\n', s)
    decreases |s|
  {
    if |s| >= 2 && s[0] == '\r' && s[1] == '\n' then
      var r := "\n" + ReplaceCrLf(s[2..]);
      assert r[1..] == ReplaceCrLf(s[2..]);
      assert s[1..][1..] == s[2..];
      r
    else if s == [] then []
    else
      var r := [s[0]] + ReplaceCrLf(s[1..]);
      assert r[1..] == ReplaceCrLf(s[1..]);
      r
  }

  /** `Split(sep)`: the pieces between separators; never empty, no piece holds the separator. */
  function Split(s: string, sep: char): (r: seq<string>)
    ensures |r| == Count(sep, s) + 1
    ensures forall k :: 0 <= k < |r| ==> sep !in r[k]
    decreases |s|
  {
    if s == [] then [""]
    else
      var rest := Split(s[1..], sep);
      if s[0] == sep then [""] + rest
      else [[s[0]] + rest[0]] + rest[1..]
  }

  /** `string.Join(sep, parts)`. */
  function Join(sep: string, parts: seq<string>): string
    decreases |parts|
  {
    if |parts| == 0 then ""
    else if |parts| == 1 then parts[0]
    else parts[0] + sep + Join(sep, parts[1..])
  }

  /** Each part followed by `terminator`: what one `AppendLine` per part leaves in a builder. */
  function Terminated(parts: seq<string>, terminator: string): string
    decreases |parts|
  {
    if parts == [] then ""
    else Terminated(parts[..|parts| - 1], terminator) + parts[|parts| - 1] + terminator
  }

  /** A character beyond the Basic Multilingual Plane, which UTF-16 stores as a surrogate pair. */
  predicate IsSupplementary(c: char) {
    c as int > 0xFFFF
  }

  /** `Length` of a .NET string: the number of UTF-16 code units, two for each supplementary
      character and one for any other. */
  function Utf16Length(s: string): (n: nat)
    ensures |s| <= n <= 2 * |s|
    decreases |s|
  {
    if s == [] then 0 else (if IsSupplementary(s[0]) then 2 else 1) + Utf16Length(s[1..])
  }

  /** `Environment.NewLine` on the platforms .NET runs on. */
  predicate IsNewLine(nl: string) {
    nl == "\n" || nl == "\r\n"
  }

  // ---------------------------------------------------------------------------------------------
  // Properties

  /** Joining one more piece appends the separator and that piece. */
  lemma {:induction false} JoinSnoc(sep: string, parts: seq<string>, p: string)
    requires parts != []
    ensures Join(sep, parts + [p]) == Join(sep, parts) + sep + p
    decreases |parts|
  {
    if |parts| > 1 {
      assert (parts + [p])[1..] == parts[1..] + [p];
      JoinSnoc(sep, parts[1..], p);
    }
  }

  lemma TerminatedSnoc(parts: seq<string>, p: string, terminator: string)
    ensures Terminated(parts + [p], terminator) == Terminated(parts, terminator) + p + terminator
  {
    assert (parts + [p])[..|parts|] == parts;
  }

  /** Terminating every part is joining them and terminating the last one. */
  lemma {:induction false} TerminatedJoin(parts: seq<string>, sep: string)
    requires parts != []
    ensures Terminated(parts, sep) == Join(sep, parts) + sep
    decreases |parts|
  {
    var init := parts[..|parts| - 1];
    var last := parts[|parts| - 1];
    assert parts == init + [last];
    if init == [] {
      assert parts == [last];
    } else {
      TerminatedJoin(init, sep);
      JoinSnoc(sep, init, last);
    }
  }

  /** Splitting and joining back with the same separator gives the original text. */
  lemma {:induction false} JoinSplit(s: string, sep: char)
    ensures Join([sep], Split(s, sep)) == s
    decreases |s|
  {
    if s != [] {
      var rest := Split(s[1..], sep);
      JoinSplit(s[1..], sep);
      if s[0] == sep {
        var parts := [""] + rest;
        assert parts[1..] == rest;
        assert s == [sep] + s[1..];
      } else {
        var parts := [[s[0]] + rest[0]] + rest[1..];
        if |rest| == 1 {
          assert s == [s[0]] + s[1..];
        } else {
          assert parts[1..] == rest[1..];
          assert Join([sep], rest) == rest[0] + [sep] + Join([sep], rest[1..]);
          assert s == [s[0]] + s[1..];
        }
      }
    }
  }

  /** Splitting text free of the separator gives that text alone. */
  lemma {:induction false} SplitNoSeparator(w: string, sep: char)
    requires sep !in w
    ensures Split(w, sep) == [w]
    decreases |w|
  {
    if w != [] {
      SplitNoSeparator(w[1..], sep);
      assert w == [w[0]] + w[1..];
    }
  }

  /** Where the text does not open with CRLF, its first character comes through unchanged. */
  lemma ReplaceCrLfKeepsHead(s: string)
    requires s != [] && !(|s| >= 2 && s[0] == '\r' && s[1] == '\n')
    ensures ReplaceCrLf(s) == [s[0]] + ReplaceCrLf(s[1..])
  {
  }

  /** A line that holds no LF and does not end in CR, followed by an LF, comes through the CRLF
      rewrite unchanged, whatever follows it. */
  lemma {:induction false} ReplaceCrLfLine(line: string, rest: string)
    requires '\n' !in line && (line == [] || line[|line| - 1] != '\r')
    ensures ReplaceCrLf(line + "\n" + rest) == line + "\n" + ReplaceCrLf(rest)
    decreases |line|
  {
    var s := line + "\n" + rest;
    if line == [] {
      assert s[0] == '\n' && s[1..] == rest;
      ReplaceCrLfKeepsHead(s);
    } else {
      var tail := line[1..] + "\n" + rest;
      assert s == [line[0]] + tail;
      assert |line| > 1 ==> tail[0] == line[1];
      assert |line| == 1 ==> tail[0] == '\n';
      ReplaceCrLfKeepsHead(s);
      assert s[1..] == tail;
      ReplaceCrLfLine(line[1..], rest);
      var r := ReplaceCrLf(rest);
      calc {
        ReplaceCrLf(s);
        [line[0]] + ((line[1..] + "\n") + r);
        ([line[0]] + (line[1..] + "\n")) + r;
        { assert [line[0]] + (line[1..] + "\n") == line + "\n"; }
        (line + "\n") + r;
      }
    }
  }

  /** A separator-free prefix followed by the separator becomes the first piece. */
  lemma {:induction false} SplitFirstPiece(w: string, sep: char, t: string)
    requires sep !in w
    ensures Split(w + [sep] + t, sep) == [w] + Split(t, sep)
    decreases |w|
  {
    var s := w + [sep] + t;
    if w == [] {
      assert s[1..] == t;
    } else {
      assert s[1..] == w[1..] + [sep] + t;
      SplitFirstPiece(w[1..], sep, t);
      assert w == [w[0]] + w[1..];
    }
  }

  /** Joining separator-free pieces and splitting again gives the pieces back. */
  lemma {:induction false} SplitJoin(parts: seq<string>, sep: char)
    requires |parts| >= 1
    requires forall k :: 0 <= k < |parts| ==> sep !in parts[k]
    ensures Split(Join([sep], parts), sep) == parts
    decreases |parts|
  {
    if |parts| == 1 {
      SplitNoSeparator(parts[0], sep);
    } else {
      SplitJoin(parts[1..], sep);
      SplitFirstPiece(parts[0], sep, Join([sep], parts[1..]));
      assert parts == [parts[0]] + parts[1..];
    }
  }

  /** The CRLF rewrite changes the text exactly when the text holds a CRLF pair. */
  lemma {:induction false} ReplaceCrLfChangesIff(s: string)
    ensures ReplaceCrLf(s) == s <==> !ContainsCrLf(s)
    decreases |s|
  {
    if |s| >= 2 && s[0] == '\r' && s[1] == '\n' {
      assert |ReplaceCrLf(s)| < |s|;
      assert ContainsCrLf(s) by { assert s[0] == '\r' && s[0 + 1] == '\n'; }
    } else if s != [] {
      ReplaceCrLfChangesIff(s[1..]);
      var r := ReplaceCrLf(s);
      assert r == [s[0]] + ReplaceCrLf(s[1..]);
      if ContainsCrLf(s) {
        var i :| 0 <= i < |s| - 1 && s[i] == '\r' && s[i + 1] == '\n';
        assert i > 0;
        assert s[1..][i - 1] == '\r' && s[1..][i - 1 + 1] == '\n';
      }
      if ContainsCrLf(s[1..]) {
        var i :| 0 <= i < |s[1..]| - 1 && s[1..][i] == '\r' && s[1..][i + 1] == '\n';
        assert s[i + 1] == '\r' && s[i + 1 + 1] == '\n';
      }
      if r == s {
        assert r[1..] == s[1..];
      }
      if ReplaceCrLf(s[1..]) == s[1..] {
        assert s == [s[0]] + s[1..];
      }
    }
  }

  /** The run found by `SkipWhiteSpace` is white space and ends at a non-white-space character
      or at the end of the text. */
  lemma {:induction false} SkipWhiteSpaceSpec(s: string, i: nat)
    requires i <= |s|
    ensures var r := SkipWhiteSpace(s, i);
            && (forall k :: i <= k < r ==> IsWhiteSpace(s[k]))
            && (r < |s| ==> !IsWhiteSpace(s[r]))
    decreases |s| - i
  {
    if i < |s| && IsWhiteSpace(s[i]) {
      SkipWhiteSpaceSpec(s, i + 1);
    }
  }

  /** The run found by `SkipWhiteSpaceBack` is white space and starts after a non-white-space
      character or at the start of the text. */
  lemma {:induction false} SkipWhiteSpaceBackSpec(s: string, j: nat)
    requires j <= |s|
    ensures var r := SkipWhiteSpaceBack(s, j);
            && (forall k :: r <= k < j ==> IsWhiteSpace(s[k]))
            && (r > 0 ==> !IsWhiteSpace(s[r - 1]))
    decreases j
  {
    if j > 0 && IsWhiteSpace(s[j - 1]) {
      SkipWhiteSpaceBackSpec(s, j - 1);
    }
  }

  /** The white-space run ending at `j` is determined by its two defining facts. */
  lemma SkipWhiteSpaceBackUnique(s: string, j: nat, r: nat)
    requires r <= j <= |s|
    requires forall k :: r <= k < j ==> IsWhiteSpace(s[k])
    requires r > 0 ==> !IsWhiteSpace(s[r - 1])
    ensures SkipWhiteSpaceBack(s, j) == r
  {
    SkipWhiteSpaceBackSpec(s, j);
  }

  /** The white-space run starting at `i` is determined by its two defining facts. */
  lemma SkipWhiteSpaceUnique(s: string, i: nat, r: nat)
    requires i <= r <= |s|
    requires forall k :: i <= k < r ==> IsWhiteSpace(s[k])
    requires r < |s| ==> !IsWhiteSpace(s[r])
    ensures SkipWhiteSpace(s, i) == r
  {
    SkipWhiteSpaceSpec(s, i);
  }

  /** `Trim` leaves nothing exactly when the text is blank, and otherwise starts and ends with
      non-white-space characters; it is the text with its blank prefix and blank suffix removed. */
  lemma TrimSpec(s: string)
    ensures var r := Trim(s);
            && |r| <= |s|
            && (r == [] <==> IsBlank(s))
            && (r == [] || (!IsWhiteSpace(r[0]) && !IsWhiteSpace(r[|r| - 1])))
    ensures var r := Trim(s);
            var a := SkipWhiteSpace(s, 0);
            && a + |r| <= |s|
            && IsBlank(s[..a])
            && s[a..a + |r|] == r
            && IsBlank(s[a + |r|..])
  {
    var a := SkipWhiteSpace(s, 0);
    SkipWhiteSpaceSpec(s, 0);
    var t := s[a..];
    var b := SkipWhiteSpaceBack(t, |t|);
    SkipWhiteSpaceBackSpec(t, |t|);
    assert Trim(s) == s[a..a + b];
    var tail := s[a + b..];
    assert IsBlank(tail) by {
      forall k | 0 <= k < |tail| ensures IsWhiteSpace(tail[k]) {
        assert tail[k] == t[b + k];
      }
    }
    if a < |s| {
      assert t[0] == s[a];
      assert b > 0;
      assert Trim(s)[0] == s[a];
      assert !IsBlank(s) by {
        assert !IsWhiteSpace(s[a]);
      }
    } else {
      assert IsBlank(s) by {
        assert forall k :: 0 <= k < |s| ==> IsWhiteSpace(s[k]);
      }
    }
  }

  /** `Length` counts characters exactly when none of them is supplementary; each supplementary
      character adds one more code unit. */
  lemma {:induction false} Utf16LengthCounts(s: string)
    ensures Utf16Length(s) == |s| <==> forall i :: 0 <= i < |s| ==> !IsSupplementary(s[i])
    decreases |s|
  {
    if s != [] {
      Utf16LengthCounts(s[1..]);
      assert forall i :: 1 <= i < |s| ==> s[i] == s[1..][i - 1];
    }
  }

  /** Trimming never brings in a character the text does not hold. */
  lemma TrimKeepsOut(s: string, c: char)
    requires c !in s
    ensures c !in Trim(s)
  {
    var a := SkipWhiteSpace(s, 0);
    var t := s[a..];
    var b := SkipWhiteSpaceBack(t, |t|);
    assert Trim(s) == s[a..a + b];
  }

  /** `IndexOf` is -1 exactly when the character is absent, and otherwise no earlier position
      holds it. */
  lemma {:induction false} IndexOfSpec(s: string, c: char)
    ensures var r := IndexOf(s, c);
            && (r == -1 <==> c !in s)
            && (0 <= r ==> c !in s[..r])
    decreases |s|
  {
    if s != [] && s[0] != c {
      IndexOfSpec(s[1..], c);
      var k := IndexOf(s[1..], c);
      assert s == [s[0]] + s[1..];
      if k >= 0 {
        assert s[..k + 1] == [s[0]] + s[1..][..k];
      }
    }
  }

  /** Two texts are equal ignoring case exactly when they fold to the same text, so a dictionary
      keyed by folded text compares its keys as `OrdinalIgnoreCase` does. */
  lemma EqualsIgnoreCaseIff(a: string, b: string)
    ensures EqualsIgnoreCase(a, b) <==> FoldCase(a) == FoldCase(b)
  {
    if FoldCase(a) == FoldCase(b) {
      assert |a| == |FoldCase(a)|;
      forall i | 0 <= i < |a| ensures ToUpperOrdinal(a[i]) == ToUpperOrdinal(b[i]) {
        assert FoldCase(a)[i] == FoldCase(b)[i];
      }
    }
  }

  /** Trimming the end ignores any blank suffix. */
  lemma TrimEndBlankSuffix(x: string, w: string)
    requires IsBlank(w)
    ensures TrimEnd(x + w) == TrimEnd(x)
  {
    var s := x + w;
    var b := SkipWhiteSpaceBack(x, |x|);
    SkipWhiteSpaceBackSpec(x, |x|);
    assert forall k :: b <= k < |s| ==> IsWhiteSpace(s[k]) by {
      forall k | b <= k < |s| ensures IsWhiteSpace(s[k]) {
        if k >= |x| {
          assert s[k] == w[k - |x|];
        }
      }
    }
    SkipWhiteSpaceBackUnique(s, |s|, b);
    assert s[..b] == x[..b];
  }

  /** Trimming the start ignores any blank prefix. */
  lemma TrimStartBlankPrefix(w: string, x: string)
    requires IsBlank(w)
    ensures TrimStart(w + x) == TrimStart(x)
  {
    var s := w + x;
    var a := SkipWhiteSpace(x, 0);
    SkipWhiteSpaceSpec(x, 0);
    assert forall k :: 0 <= k < |w| + a ==> IsWhiteSpace(s[k]) by {
      forall k | 0 <= k < |w| + a ensures IsWhiteSpace(s[k]) {
        if k >= |w| {
          assert s[k] == x[k - |w|];
        }
      }
    }
    assert |w| + a < |s| ==> s[|w| + a] == x[a];
    SkipWhiteSpaceUnique(s, 0, |w| + a);
    assert s[|w| + a..] == x[a..];
  }

  /** `Trim` recovers a core that starts and ends with non-white-space from any blank padding. */
  lemma TrimPadded(w1: string, x: string, w2: string)
    requires IsBlank(w1) && IsBlank(w2)
    requires x == [] || (!IsWhiteSpace(x[0]) && !IsWhiteSpace(x[|x| - 1]))
    ensures Trim(w1 + x + w2) == x
  {
    var s := w1 + x + w2;
    if x == [] {
      assert forall k :: 0 <= k < |s| ==> IsWhiteSpace(s[k]) by {
        assert s == w1 + w2;
      }
      SkipWhiteSpaceUnique(s, 0, |s|);
    } else {
      assert forall k :: 0 <= k < |w1| ==> IsWhiteSpace(s[k]) by {
        assert s == w1 + (x + w2);
      }
      assert s[|w1|] == x[0];
      SkipWhiteSpaceUnique(s, 0, |w1|);
      assert TrimStart(s) == x + w2;
      TrimEndBlankSuffix(x, w2);
      SkipWhiteSpaceBackUnique(x, |x|, |x|);
    }
  }
}
