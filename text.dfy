/** The Python string operations the extractors rely on, written out on `seq<char>`. */
module Text {

  /** `str.isspace()` for one character (the same set `\s` matches in a str pattern). */
  predicate IsSpace(c: char) {
    c == ' ' || ('\t' <= c <= '\r') || ('\U{1C}' <= c <= '\U{1F}') || c == '\U{85}' || c == '\U{A0}'
    || c == '\U{1680}' || ('\U{2000}' <= c <= '\U{200A}') || c == '\U{2028}' || c == '\U{2029}'
    || c == '\U{202F}' || c == '\U{205F}' || c == '\U{3000}'
  }

  /** The number of whitespace characters `s` starts with. */
  function LeadingSpaces(s: string): (n: nat)
    ensures n <= |s|
  {
    if s != [] && IsSpace(s[0]) then 1 + LeadingSpaces(s[1..]) else 0
  }

  /** The leading run is all whitespace and is followed by a non-space (or the end). */
  lemma {:induction false} LeadingSpacesSpec(s: string)
    ensures forall k :: 0 <= k < LeadingSpaces(s) ==> IsSpace(s[k])
    ensures LeadingSpaces(s) < |s| ==> !IsSpace(s[LeadingSpaces(s)])
  {
    if s != [] && IsSpace(s[0]) {
      LeadingSpacesSpec(s[1..]);
    }
  }

  /** The number of whitespace characters `s` ends with. */
  function TrailingSpaces(s: string): (n: nat)
    ensures n <= |s|
  {
    if s != [] && IsSpace(s[|s| - 1]) then 1 + TrailingSpaces(s[..|s| - 1]) else 0
  }

  /** The trailing run is all whitespace and is preceded by a non-space (or the start). */
  lemma {:induction false} TrailingSpacesSpec(s: string)
    ensures forall k :: |s| - TrailingSpaces(s) <= k < |s| ==> IsSpace(s[k])
    ensures TrailingSpaces(s) < |s| ==> !IsSpace(s[|s| - 1 - TrailingSpaces(s)])
  {
    if s != [] && IsSpace(s[|s| - 1]) {
      TrailingSpacesSpec(s[..|s| - 1]);
    }
  }

  /** `str.lstrip()`, and the `\s*` that follows a matched delimiter. */
  function TrimLeft(s: string): string {
    s[LeadingSpaces(s)..]
  }

  /** `str.strip()`: leading and trailing whitespace removed. */
  function Strip(s: string): string
    decreases |s|
  {
    if s == [] then []
    else if IsSpace(s[0]) then Strip(s[1..])
    else if IsSpace(s[|s| - 1]) then Strip(s[..|s| - 1])
    else s
  }

  /** `str.strip()` empties exactly the all-whitespace strings. */
  lemma {:induction false} StripEmpty(s: string)
    ensures Strip(s) == [] <==> forall k :: 0 <= k < |s| ==> IsSpace(s[k])
    decreases |s|
  {
    if s != [] && IsSpace(s[0]) {
      StripEmpty(s[1..]);
      assert forall k :: 1 <= k < |s| ==> s[k] == s[1..][k - 1];
    } else if s != [] && IsSpace(s[|s| - 1]) {
      StripEmpty(s[..|s| - 1]);
    }
  }

  /** What `str.strip()` leaves neither starts nor ends with whitespace. */
  lemma {:induction false} StripEnds(s: string)
    ensures Strip(s) != [] ==> !IsSpace(Strip(s)[0]) && !IsSpace(Strip(s)[|Strip(s)| - 1])
    decreases |s|
  {
    if s != [] && IsSpace(s[0]) {
      StripEnds(s[1..]);
    } else if s != [] && IsSpace(s[|s| - 1]) {
      StripEnds(s[..|s| - 1]);
    }
  }

  /** What `str.strip()` leaves is the slice of `s` that starts after its leading whitespace. */
  lemma {:induction false} StripOccurs(s: string)
    ensures OccursAt(s, Strip(s), LeadingSpaces(s))
    decreases |s|
  {
    if s != [] && IsSpace(s[0]) {
      var t := s[1..];
      StripOccurs(t);
      assert s[1 + LeadingSpaces(t)..1 + LeadingSpaces(t) + |Strip(t)|] == t[LeadingSpaces(t)..LeadingSpaces(t) + |Strip(t)|];
    } else if s != [] && IsSpace(s[|s| - 1]) {
      var t := s[..|s| - 1];
      StripOccurs(t);
      assert t[0] == s[0];
      assert s[..|Strip(t)|] == t[..|Strip(t)|];
    }
  }

  /** Everything after what `str.strip()` leaves is whitespace. */
  lemma {:induction false} StripTail(s: string)
    ensures LeadingSpaces(s) + |Strip(s)| <= |s|
    ensures forall k :: LeadingSpaces(s) + |Strip(s)| <= k < |s| ==> IsSpace(s[k])
    decreases |s|
  {
    StripOccurs(s);
    if s != [] && IsSpace(s[0]) {
      var t := s[1..];
      StripTail(t);
      assert forall k :: 1 <= k < |s| ==> s[k] == t[k - 1];
    } else if s != [] && IsSpace(s[|s| - 1]) {
      var t := s[..|s| - 1];
      StripTail(t);
      assert forall k :: 0 <= k < |t| ==> s[k] == t[k];
    }
  }

  /** What `str.strip()` leaves: the whitespace before it and the whitespace after it are
      cut off, and it neither starts nor ends with whitespace; it is empty exactly when `s` is
      all whitespace. The slice is therefore the whole of `s` between its leading and its
      trailing whitespace. */
  lemma StripSpec(s: string)
    ensures Strip(s) == [] <==> forall k :: 0 <= k < |s| ==> IsSpace(s[k])
    ensures Strip(s) != [] ==> !IsSpace(Strip(s)[0]) && !IsSpace(Strip(s)[|Strip(s)| - 1])
    ensures OccursAt(s, Strip(s), LeadingSpaces(s))
    ensures forall k :: 0 <= k < LeadingSpaces(s) ==> IsSpace(s[k])
    ensures forall k :: LeadingSpaces(s) + |Strip(s)| <= k < |s| ==> IsSpace(s[k])
  {
    StripEmpty(s);
    StripEnds(s);
    StripOccurs(s);
    LeadingSpacesSpec(s);
    StripTail(s);
  }

  predicate StartsWith(s: string, prefix: string) {
    |prefix| <= |s| && s[..|prefix|] == prefix
  }

  predicate EndsWith(s: string, suffix: string) {
    |suffix| <= |s| && s[|s| - |suffix|..] == suffix
  }

  /** `t` is the slice of `s` that starts at index `i`. */
  predicate OccursAt(s: string, t: string, i: int) {
    0 <= i <= |s| - |t| && s[i..i + |t|] == t
  }

  /** `t in s` on strings, searched left to right. */
  predicate Contains(s: string, t: string)
    decreases |s|
  {
    StartsWith(s, t) || (s != [] && Contains(s[1..], t))
  }

  /** `t in s` holds exactly when `t` occurs in `s` at some position. */
  lemma {:induction false} ContainsOccurs(s: string, t: string)
    ensures Contains(s, t) <==> exists i :: OccursAt(s, t, i)
    decreases |s|
  {
    if StartsWith(s, t) {
      assert OccursAt(s, t, 0);
    } else if s != [] {
      ContainsOccurs(s[1..], t);
      if Contains(s[1..], t) {
        var i :| OccursAt(s[1..], t, i);
        assert OccursAt(s, t, i + 1);
      }
      if exists i :: OccursAt(s, t, i) {
        var i :| OccursAt(s, t, i);
        assert i != 0;
        assert OccursAt(s[1..], t, i - 1);
      }
    }
  }

  /** `str.lower()` on one character, for the ASCII letters. */
  function LowerChar(c: char): char {
    if 'A' <= c <= 'Z' then (c as int + 32) as char else c
  }

  function Lower(s: string): (r: string)
    ensures |r| == |s|
    ensures forall i :: 0 <= i < |s| ==> r[i] == LowerChar(s[i])
  {
    seq(|s|, i requires 0 <= i < |s| => LowerChar(s[i]))
  }

  /** `sep.join(parts)`. */
  function Join(parts: seq<string>, sep: string): string {
    if |parts| == 0 then ""
    else if |parts| == 1 then parts[0]
    else parts[0] + sep + Join(parts[1..], sep)
  }

  /** Joining one more part adds the separator and that part. */
  lemma {:induction false} JoinSnoc(parts: seq<string>, sep: string, last: string)
    requires parts != []
    ensures Join(parts + [last], sep) == Join(parts, sep) + sep + last
    decreases |parts|
  {
    if |parts| == 1 {
      assert (parts + [last])[1..] == [last];
    } else {
      assert (parts + [last])[1..] == parts[1..] + [last];
      JoinSnoc(parts[1..], sep, last);
    }
  }

  /** `s.split(sep)` for a one-character separator: at least one piece, no piece holds
      the separator, and joining the pieces back gives `s`. */
  function Split(s: string, sep: char): (r: seq<string>)
    ensures |r| >= 1
    ensures forall k :: 0 <= k < |r| ==> sep !in r[k]
    ensures Join(r, [sep]) == s
  {
    if s == [] then [""]
    else
      var rest := Split(s[1..], sep);
      if s[0] == sep then
        assert Join([""] + rest, [sep]) == [sep] + Join(rest, [sep]) by {
          assert ([""] + rest)[1..] == rest;
        }
        [""] + rest
      else
        var r := [[s[0]] + rest[0]] + rest[1..];
        assert r[1..] == rest[1..];
        r
  }

  /** The first piece of `s.split(sep)` is the text before the first separator: a prefix of
      `s` followed by a separator or by the end. */
  lemma SplitFirst(s: string, sep: char)
    ensures StartsWith(s, Split(s, sep)[0])
    ensures |Split(s, sep)[0]| == |s| || s[|Split(s, sep)[0]|] == sep
  {
    var r := Split(s, sep);
    if |r| > 1 {
      assert s == r[0] + [sep] + Join(r[1..], [sep]);
      assert s[..|r[0]|] == r[0];
    }
  }

  lemma {:induction false} SplitNoSeparator(p: string, sep: char)
    requires sep !in p
    ensures Split(p, sep) == [p]
  {
    if p != [] {
      SplitNoSeparator(p[1..], sep);
      assert [p[0]] + p[1..] == p;
    }
  }

  lemma {:induction false} SplitAtSeparator(p: string, sep: char, t: string)
    requires sep !in p
    ensures Split(p + [sep] + t, sep) == [p] + Split(t, sep)
  {
    if p == [] {
      assert p + [sep] + t == [sep] + t;
      assert ([sep] + t)[1..] == t;
    } else {
      assert (p + [sep] + t)[1..] == p[1..] + [sep] + t;
      SplitAtSeparator(p[1..], sep, t);
      assert [p[0]] + p[1..] == p;
    }
  }

  /** Splitting undoes joining, for pieces that hold no separator. */
  lemma {:induction false} SplitJoin(parts: seq<string>, sep: char)
    requires |parts| >= 1
    requires forall k :: 0 <= k < |parts| ==> sep !in parts[k]
    ensures Split(Join(parts, [sep]), sep) == parts
  {
    if |parts| == 1 {
      SplitNoSeparator(parts[0], sep);
    } else {
      SplitJoin(parts[1..], sep);
      SplitAtSeparator(parts[0], sep, Join(parts[1..], [sep]));
      assert [parts[0]] + parts[1..] == parts;
    }
  }

  /** A line boundary of `str.splitlines()`. */
  predicate IsLineBreak(c: char) {
    c == '\n' || c == '\r' || c == '\U{0B}' || c == '\U{0C}' || ('\U{1C}' <= c <= '\U{1E}')
    || c == '\U{85}' || c == '\U{2028}' || c == '\U{2029}'
  }

  /** The index of the first line boundary in `s`, or `|s|` when there is none. */
  function LineEnd(s: string): (i: nat)
    ensures i <= |s|
    ensures forall k :: 0 <= k < i ==> !IsLineBreak(s[k])
    ensures i < |s| ==> IsLineBreak(s[i])
  {
    if s == [] || IsLineBreak(s[0]) then 0 else 1 + LineEnd(s[1..])
  }

  /** `str.splitlines()`: the text between line boundaries (`\r\n` counts as one), with no
      final empty piece for a trailing boundary and none at all for the empty string. */
  function SplitLines(s: string): (r: seq<string>)
    ensures s == [] <==> r == []
    ensures forall k, j :: 0 <= k < |r| && 0 <= j < |r[k]| ==> !IsLineBreak(r[k][j])
    decreases |s|
  {
    if s == [] then []
    else
      [s[..LineEnd(s)]] + SplitLines(s[NextLine(s)..])
  }

  /** The only line boundaries of `s` are newlines. */
  predicate OnlyNewlines(s: string) {
    forall k :: 0 <= k < |s| && IsLineBreak(s[k]) ==> s[k] == '\n'
  }

  /** For a text whose only line boundaries are newlines, `splitlines()` is `split('\n')` of
      the text without its final newline, and gives nothing for the empty text. */
  lemma {:induction false} SplitLinesOfNewlines(s: string)
    requires OnlyNewlines(s)
    ensures s == [] ==> SplitLines(s) == []
    ensures s != [] && s[|s| - 1] != '\n' ==> SplitLines(s) == Split(s, '\n')
    ensures s != [] && s[|s| - 1] == '\n' ==> SplitLines(s) == Split(s[..|s| - 1], '\n')
    decreases |s|
  {
    if s != [] {
      if LineEnd(s) == |s| {
        SingleLine(s);
      } else {
        var line, rest := FirstLine(s);
        if rest != [] {
          SplitLinesOfNewlines(rest);
          if rest[|rest| - 1] == '\n' {
            LaterLinesTrailing(s, line, rest);
          } else {
            SplitAtSeparator(line, '\n', rest);
          }
        }
      }
    }
  }

  /** A text without a line boundary is one line, and holds no newline. */
  lemma SingleLine(s: string)
    requires s != [] && LineEnd(s) == |s|
    ensures SplitLines(s) == [s] && Split(s, '\n') == [s] && s[|s| - 1] != '\n'
  {
    assert '\n' !in s by {
      forall k | 0 <= k < |s|
        ensures s[k] != '\n'
      {
      }
    }
    SplitNoSeparator(s, '\n');
    assert s[..|s|] == s && s[|s|..] == [];
  }

  /** A text whose first boundary is a newline: its first line, then the lines of the rest. */
  lemma FirstLine(s: string) returns (line: string, rest: string)
    requires OnlyNewlines(s) && s != [] && LineEnd(s) < |s|
    ensures s == line + ['\n'] + rest && '\n' !in line && OnlyNewlines(rest)
    ensures SplitLines(s) == [line] + SplitLines(rest)
    ensures rest == [] ==> SplitLines(s) == Split(s[..|s| - 1], '\n')
  {
    var i := LineEnd(s);
    line, rest := s[..i], s[i + 1..];
    assert s[i] == '\n';
    assert '\n' !in line by {
      forall k | 0 <= k < |line|
        ensures line[k] != '\n'
      {
        assert line[k] == s[k];
      }
    }
    assert forall k :: 0 <= k < |rest| ==> rest[k] == s[i + 1 + k];
    assert NextLine(s) == i + 1;
    assert s == line + ['\n'] + rest;
    if rest == [] {
      assert s[..|s| - 1] == line;
      SplitNoSeparator(line, '\n');
    }
  }

  /** A first line and the split of a non-empty rest that ends in a newline make the split of
      the whole text without its final newline. */
  lemma LaterLinesTrailing(s: string, line: string, rest: string)
    requires s == line + ['\n'] + rest && '\n' !in line && rest != [] && rest[|rest| - 1] == '\n'
    ensures Split(s[..|s| - 1], '\n') == [line] + Split(rest[..|rest| - 1], '\n')
  {
    DropLast(line + ['\n'], rest);
    SplitAtSeparator(line, '\n', rest[..|rest| - 1]);
  }

  /** Dropping the last element of a concatenation with a non-empty right part. */
  lemma DropLast(a: string, b: string)
    requires b != []
    ensures (a + b)[..|a + b| - 1] == a + b[..|b| - 1]
  {
  }



  /** Where the line after the first one starts: past the boundary, `\r\n` taken together. */
  function NextLine(s: string): (next: nat)
    requires s != []
    ensures 0 < next <= |s|
  {
    var i := LineEnd(s);
    if i == |s| then i
    else if s[i] == '\r' && i + 1 < |s| && s[i + 1] == '\n' then i + 2
    else i + 1
  }

  /** The lines of an all-whitespace text are all whitespace. */
  lemma {:induction false} SplitLinesOfBlank(s: string)
    requires forall k :: 0 <= k < |s| ==> IsSpace(s[k])
    ensures forall k, j :: 0 <= k < |SplitLines(s)| && 0 <= j < |SplitLines(s)[k]| ==> IsSpace(SplitLines(s)[k][j])
    decreases |s|
  {
    if s != [] {
      var rest := s[NextLine(s)..];
      SplitLinesOfBlank(rest);
      assert SplitLines(s) == [s[..LineEnd(s)]] + SplitLines(rest);
    }
  }
}
