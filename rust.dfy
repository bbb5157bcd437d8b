/** The Rust outline extractor: a scanner over the stripped lines of a file that records
    structs, enums, traits and functions, qualifying functions by the last type seen. */
module RustOutline {
  import opened Wrappers
  import opened Text
  import opened Declarations
  import opened Seqs

  /** The declaration searches, left abstract: each gives group 1 of a search of its pattern
      in a stripped line (the captured identifier), or None when it does not match. */
  datatype RustPatterns = RustPatterns(
    structName: string -> Option<string>,
    enumName: string -> Option<string>,
    traitName: string -> Option<string>,
    implType: string -> Option<string>,
    fnName: string -> Option<string>)

  /** The impl pattern captures `\w+`, which is never empty. */
  ghost predicate ImplCapturesName(pats: RustPatterns) {
    forall l :: pats.implType(l).Some? ==> pats.implType(l).value != ""
  }

  /** `supports_file`: the lower-cased name ends in `.rs`. */
  function SupportsFile(filename: string): (b: bool)
    ensures b <==> |filename| >= 3 && filename[|filename| - 3] == '.'
                   && LowerChar(filename[|filename| - 2]) == 'r'
                   && LowerChar(filename[|filename| - 1]) == 's'
  {
    var low := Lower(filename);
    assert EndsWith(low, ".rs") <==> |low| >= 3 && low[|low| - 3] == '.' && low[|low| - 2] == 'r' && low[|low| - 1] == 's';
    EndsWith(low, ".rs")
  }

  // ---------------------------------------------------------------------------------------
  // Leading comments

  /** `re.sub(r'///\s*', '', s)`: each `///` and the whitespace after it removed, left to right. */
  function DropDocMarkers(s: string): (r: string)
    ensures |r| <= |s|
    decreases |s|
  {
    if s == [] then []
    else if StartsWith(s, "///") then DropDocMarkers(TrimLeft(s[3..]))
    else [s[0]] + DropDocMarkers(s[1..])
  }

  // re.sub(r'//\s*|/\*|\*/|\*\s*', '', s): comment delimiters removed, the alternatives
  // tried in order at each position.
  function DropCommentDelimiters(s: string): string
    decreases |s|
  {
    if s == [] then []
    else if StartsWith(s, "//") then DropCommentDelimiters(TrimLeft(s[2..]))
    else if StartsWith(s, "/*") || StartsWith(s, "*/") then DropCommentDelimiters(s[2..])
    else if s[0] == '*' then DropCommentDelimiters(TrimLeft(s[1..]))
    else [s[0]] + DropCommentDelimiters(s[1..])
  }

  /** A body of `(?:[^*]|\*[^/])*`: characters other than `*`, and `*`s each followed by a
      character other than `/`. */
  predicate BlockBody(w: string)
    decreases |w|
  {
    || w == []
    || (w[0] != '*' && BlockBody(w[1..]))
    || (|w| >= 2 && w[0] == '*' && w[1] != '/' && BlockBody(w[2..]))
  }

  /** The trailing-comment pattern matches `s` from its first character to its end: a `//`
      comment, or a `/* ... */` block followed only by whitespace. */
  predicate CommentAt(s: string) {
    || StartsWith(s, "//")
    || (&& StartsWith(s, "/*")
        && var u := s[2..|s| - TrailingSpaces(s[2..])];
           EndsWith(u, "*/") && BlockBody(u[..|u| - 2]))
  }

  /** `re.search` of the trailing-comment pattern: the match, group 0, starting at the leftmost
      position where the pattern matches through to the end of the line. */
  function TrailingComment(s: string): Option<string>
    decreases |s|
  {
    if s == [] then None
    else if CommentAt(s) then Some(s)
    else TrailingComment(s[1..])
  }

  /** The match found is the leftmost one: none is reported only when the pattern matches at no
      position, and a reported match starts at the first position where it matches. */
  lemma {:induction false} TrailingCommentLeftmost(s: string)
    ensures TrailingComment(s).Some? ==> EndsWith(s, TrailingComment(s).value) && CommentAt(TrailingComment(s).value)
    ensures TrailingComment(s).None? ==> forall p :: 0 <= p <= |s| ==> !CommentAt(s[p..])
    ensures TrailingComment(s).Some? ==>
              var p := |s| - |TrailingComment(s).value|;
              forall q :: 0 <= q < p ==> !CommentAt(s[q..])
    decreases |s|
  {
    if s != [] && !CommentAt(s) {
      TrailingCommentLeftmost(s[1..]);
      forall q | 1 <= q <= |s|
        ensures s[q..] == s[1..][q - 1..]
      {
      }
    }
  }

  /** No `*` survives the removal, nothing is added, and text without `/` or `*` is left as it
      is. */
  lemma {:induction false} DropCommentDelimitersSpec(s: string)
    ensures |DropCommentDelimiters(s)| <= |s|
    ensures '*' !in DropCommentDelimiters(s)
    ensures NoDelimiterChars(s) ==> DropCommentDelimiters(s) == s
    decreases |s|
  {
    if NoDelimiterChars(s) {
      DropCommentDelimitersKeeps(s, []);
      assert s + [] == s;
    }
    if s == [] {
    } else if StartsWith(s, "//") {
      DropCommentDelimitersSpec(TrimLeft(s[2..]));
    } else if StartsWith(s, "/*") || StartsWith(s, "*/") {
      DropCommentDelimitersSpec(s[2..]);
    } else if s[0] == '*' {
      DropCommentDelimitersSpec(TrimLeft(s[1..]));
    } else {
      DropCommentDelimitersSpec(s[1..]);
    }
  }

  /** A first character that is neither `/` nor `*` starts no delimiter and is kept. */
  lemma DropCommentDelimitersPlain(s: string)
    requires s != [] && s[0] != '/' && s[0] != '*'
    ensures DropCommentDelimiters(s) == [s[0]] + DropCommentDelimiters(s[1..])
  {
    if |s| >= 2 {
      assert s[..2][0] == s[0];
    }
  }

  /** `w` holds neither `/` nor `*`, so no comment delimiter starts in it. */
  predicate NoDelimiterChars(w: string) {
    forall k :: 0 <= k < |w| ==> w[k] != '/' && w[k] != '*'
  }

  /** Text without `/` or `*` is kept as it is, whatever follows it. */
  lemma {:induction false} DropCommentDelimitersKeeps(w: string, x: string)
    requires NoDelimiterChars(w)
    ensures DropCommentDelimiters(w + x) == w + DropCommentDelimiters(x)
    decreases |w|
  {
    if w == [] {
      assert w + x == x;
    } else {
      var v := w[1..];
      DropCommentDelimitersCons(w, x);
      NoDelimiterCharsTail(w);
      DropCommentDelimitersKeeps(v, x);
      ConsAppend(w, DropCommentDelimiters(x));
    }
  }

  /** A first character that is neither `/` nor `*`, followed by anything, is kept. */
  lemma DropCommentDelimitersCons(w: string, x: string)
    requires w != [] && w[0] != '/' && w[0] != '*'
    ensures DropCommentDelimiters(w + x) == [w[0]] + DropCommentDelimiters(w[1..] + x)
  {
    assert (w + x)[0] == w[0] && (w + x)[1..] == w[1..] + x;
    DropCommentDelimitersPlain(w + x);
  }

  lemma ConsAppend(w: string, d: string)
    requires w != []
    ensures [w[0]] + (w[1..] + d) == w + d
  {
    assert [w[0]] + w[1..] == w;
  }

  lemma NoDelimiterCharsTail(w: string)
    requires w != [] && NoDelimiterChars(w)
    ensures w[0] != '/' && w[0] != '*' && NoDelimiterChars(w[1..])
  {
    assert forall k :: 0 <= k < |w| - 1 ==> w[1..][k] == w[k + 1];
  }

  /** A `//` is removed with the whitespace after it. */
  lemma DropCommentDelimitersLine(t: string)
    ensures DropCommentDelimiters("//" + t) == DropCommentDelimiters(TrimLeft(t))
  {
    assert ("//" + t)[..2] == "//";
    assert ("//" + t)[2..] == t;
  }

  // The text of a `/* ... */` block is what remains, when it holds no `/` or `*` itself.
  lemma DropCommentDelimitersBlock(w: string)
    requires NoDelimiterChars(w)
    ensures DropCommentDelimiters("/*" + w + "*/") == w
  {
    var s := "/*" + w + "*/";
    assert s[..2] == "/*" && s[1] == '*';
    assert s[2..] == w + "*/";
    DropCommentDelimitersKeeps(w, "*/");
    DropCommentDelimitersClose();
    assert w + [] == w;
  }

  // A closing `*/` alone leaves nothing.
  lemma DropCommentDelimitersClose()
    ensures DropCommentDelimiters("*/") == []
  {
    assert "*/"[..2] == "*/" && "*/"[2..] == [];
  }

  /** The text of a `//` comment is what remains, when it holds no `/` or `*` and does not start
      with whitespace. */
  lemma DropCommentDelimitersLineText(w: string)
    requires NoDelimiterChars(w)
    requires w == [] || !IsSpace(w[0])
    ensures DropCommentDelimiters("//" + w) == w
  {
    DropCommentDelimitersLine(w);
    assert TrimLeft(w) == w by {
      assert LeadingSpaces(w) == 0;
    }
    DropCommentDelimitersKeeps(w, []);
    assert w + [] == w;
  }

  /** A stripped line is a doc comment when it starts with `///` (a match of `///[^\n]*`). */
  predicate IsDocLine(line: string) {
    StartsWith(Strip(line), "///")
  }

  /** A line that ends the upward search for doc comments: neither blank nor a doc comment. */
  predicate StopsDocRun(line: string) {
    Strip(line) != "" && !IsDocLine(line)
  }

  /** The doc-comment texts collected by the upward scan from line `n` (exclusive), in source order. */
  function DocRun(lines: seq<string>, n: nat): seq<string>
    requires n <= |lines|
  {
    if n == 0 then []
    else
      var l := Strip(lines[n - 1]);
      if l == "" then DocRun(lines, n - 1)
      else if StartsWith(l, "///") then DocRun(lines, n - 1) + [DropDocMarkers(l)]
      else []
  }

  /** The doc-comment texts of a block of lines, front to back, other lines ignored. */
  function DocTexts(ls: seq<string>): seq<string> {
    if ls == [] then []
    else (if IsDocLine(ls[0]) then [DropDocMarkers(Strip(ls[0]))] else []) + DocTexts(ls[1..])
  }

  lemma {:induction false} DocTextsSnoc(ls: seq<string>, x: string)
    ensures DocTexts(ls + [x]) == DocTexts(ls) + (if IsDocLine(x) then [DropDocMarkers(Strip(x))] else [])
  {
    if ls != [] {
      assert (ls + [x])[1..] == ls[1..] + [x];
      DocTextsSnoc(ls[1..], x);
    }
  }

  /** Where the run of blank and doc-comment lines directly above line `n` begins: every line
      from there up to `n` continues the run, and the line before it (if any) stops it. */
  function RunStart(lines: seq<string>, n: nat): (k: nat)
    requires n <= |lines|
    ensures k <= n
    ensures forall j :: k <= j < n ==> !StopsDocRun(lines[j])
  {
    if n == 0 then 0
    else if StopsDocRun(lines[n - 1]) then n
    else RunStart(lines, n - 1)
  }

  /** The run is maximal: it reaches the top of the file or a line that stops it. */
  lemma {:induction false} RunStartStops(lines: seq<string>, n: nat)
    requires n <= |lines|
    ensures RunStart(lines, n) == 0 || StopsDocRun(lines[RunStart(lines, n) - 1])
  {
    if n > 0 && !StopsDocRun(lines[n - 1]) {
      RunStartStops(lines, n - 1);
    }
  }

  /** The collected doc comments are exactly the `///` lines of the run of blank and doc lines
      directly above line `n`, in source order. */
  lemma {:induction false} DocRunSpec(lines: seq<string>, n: nat)
    requires n <= |lines|
    ensures DocRun(lines, n) == DocTexts(lines[RunStart(lines, n)..n])
  {
    if n > 0 && !StopsDocRun(lines[n - 1]) {
      var m := n - 1;
      DocRunSpec(lines, m);
      var k := RunStart(lines, m);
      assert lines[k..n] == lines[k..m] + [lines[m]];
      DocTextsSnoc(lines[k..m], lines[m]);
    }
  }

  /** The leading comment of line `n`: the doc-comment run above it joined with spaces, or else
      the trailing comment of the line just above with its delimiters stripped; none for line 0. */
  function LeadingCommentOf(lines: seq<string>, n: nat): (c: Option<string>)
    requires n <= |lines|
    ensures n == 0 ==> c.None?
  {
    if n == 0 then None
    else
      var docs := DocRun(lines, n);
      if docs != [] then Some(Join(docs, " "))
      else
        match TrailingComment(Strip(lines[n - 1]))
        case Some(m) => Some(Strip(DropCommentDelimiters(m)))
        case None => None
  }

  /** The upward loop of `get_leading_comment`: skips blank lines, prepends each doc comment,
      and stops at the first other line. */
  method CollectDocComments(lines: seq<string>, lineNum: nat) returns (docComments: seq<string>)
    requires lineNum <= |lines|
    ensures docComments == DocRun(lines, lineNum)
  {
    docComments := [];
    var i: int := lineNum - 1;
    while i >= 0
      invariant -1 <= i < lineNum
      invariant DocRun(lines, lineNum) == DocRun(lines, i + 1) + docComments
    {
      var line := Strip(lines[i]);
      ghost var m: nat := i;
      if line == "" {
        assert DocRun(lines, m + 1) == DocRun(lines, m);
        i := i - 1;
        continue;
      }
      if StartsWith(line, "///") {
        var doc := DropDocMarkers(line);
        assert DocRun(lines, m + 1) == DocRun(lines, m) + [doc];
        assert DocRun(lines, m) + [doc] + docComments == DocRun(lines, m) + ([doc] + docComments);
        docComments := [doc] + docComments;
        i := i - 1;
      } else {
        assert DocRun(lines, m + 1) == [];
        break;
      }
    }
  }

  /** `get_leading_comment`: the doc comments above the line, or else the trailing comment of
      the line just above. */
  method GetLeadingComment(lines: seq<string>, lineNum: nat) returns (c: Option<string>)
    requires lineNum <= |lines|
    ensures c == LeadingCommentOf(lines, lineNum)
  {
    if lineNum == 0 {
      return None;
    }
    var docComments := CollectDocComments(lines, lineNum);
    if docComments != [] {
      return Some(Join(docComments, " "));
    }
    var prevLine := Strip(lines[lineNum - 1]);
    var commentMatch := TrailingComment(prevLine);
    if commentMatch.Some? {
      return Some(Strip(DropCommentDelimiters(commentMatch.value)));
    }
    return None;
  }

  // ---------------------------------------------------------------------------------------
  // The line scanner

  /** What a code line declares: the patterns are tried in the order struct, enum, trait,
      impl, fn, and the first that matches decides. */
  datatype LineClass =
    | StructDecl(name: string)
    | EnumDecl(name: string)
    | TraitDecl(name: string)
    | ImplDecl(name: string)
    | FnDecl(name: string)
    | NoDecl

  function Classify(line: string, pats: RustPatterns): LineClass {
    if pats.structName(line).Some? then StructDecl(pats.structName(line).value)
    else if pats.enumName(line).Some? then EnumDecl(pats.enumName(line).value)
    else if pats.traitName(line).Some? then TraitDecl(pats.traitName(line).value)
    else if pats.implType(line).Some? then ImplDecl(pats.implType(line).value)
    else if pats.fnName(line).Some? then FnDecl(pats.fnName(line).value)
    else NoDecl
  }

  /** The class of each stripped line (none past the end). */
  function ClassFn(ls: seq<string>, pats: RustPatterns): nat -> LineClass {
    (j: nat) => if j < |ls| then Classify(ls[j], pats) else NoDecl
  }

  /** The class of every stripped line of a file. */
  function Classes(ls: seq<string>, pats: RustPatterns): (ks: seq<LineClass>)
    ensures |ks| == |ls|
  {
    Tabulate(ClassFn(ls, pats), 0, |ls|)
  }

  lemma ClassesAt(ls: seq<string>, pats: RustPatterns, j: nat)
    requires j < |ls|
    ensures Classes(ls, pats)[j] == Classify(ls[j], pats)
  {
    TabulateAt(ClassFn(ls, pats), 0, |ls|, j);
  }

  /** Every impl class carries a non-empty type name. */
  ghost predicate ImplNamed(ks: seq<LineClass>) {
    forall j :: 0 <= j < |ks| && ks[j].ImplDecl? ==> ks[j].name != ""
  }

  lemma ClassesImplNamed(ls: seq<string>, pats: RustPatterns)
    requires ImplCapturesName(pats)
    ensures ImplNamed(Classes(ls, pats))
  {
    forall j | 0 <= j < |ls| && Classes(ls, pats)[j].ImplDecl?
      ensures Classes(ls, pats)[j].name != ""
    {
      ClassesAt(ls, pats, j);
    }
  }

  /** The scanner's variables: the current path, the last impl type (empty when no impl has been
      seen), whether a block comment is open, the names recorded so far and the records. */
  datatype ScanState = ScanState(
    path: seq<string>,
    currentImpl: string,
    inBlockComment: bool,
    seen: set<string>,
    functions: seq<FunctionInfo>)

  const Start := ScanState([], "", false, {}, [])

  /** A function's recorded name: the path joined with dots, then a dot and the name. */
  function FullName(path: seq<string>, name: string): string {
    if path != [] then Join(path, ".") + "." + name else name
  }

  /** Functions named with a leading underscore are dropped, except `__init__`. */
  predicate KeepsFnName(name: string) {
    !StartsWith(name, "_") || name == "__init__"
  }

  /** The scanner's view of a file from line `i` on: every line stripped. */
  function Stripped(lines: seq<string>, i: nat := 0): (ls: seq<string>)
    requires i <= |lines|
    ensures |ls| == |lines| - i
    decreases |lines| - i
  {
    if i == |lines| then [] else [Strip(lines[i])] + Stripped(lines, i + 1)
  }

  lemma {:induction false} StrippedAt(lines: seq<string>, i: nat, k: nat)
    requires i <= k < |lines|
    ensures Stripped(lines, i)[k - i] == Strip(lines[k])
    decreases k - i
  {
    if i < k {
      StrippedAt(lines, i + 1, k);
    }
  }

  /** The leading comment a line number of the file would be given (none past its end). */
  function CommentFn(lines: seq<string>): nat -> Option<string> {
    (k: nat) => if k <= |lines| then LeadingCommentOf(lines, k) else None
  }

  /** The leading comment each line of a file would be given. */
  function Comments(lines: seq<string>): (cs: seq<Option<string>>)
    ensures |cs| == |lines|
  {
    Tabulate(CommentFn(lines), 0, |lines|)
  }

  lemma CommentsAt(lines: seq<string>, k: nat)
    requires k < |lines|
    ensures Comments(lines)[k] == LeadingCommentOf(lines, k)
  {
    TabulateAt(CommentFn(lines), 0, |lines|, k);
  }

  /** A struct, enum or trait line: a public name becomes the path and is recorded once. */
  function TypeLine(st: ScanState, name: string, kind: NodeType, lineNo: nat, comment: Option<string>): ScanState {
    if StartsWith(name, "_") then st
    else if name in st.seen then st.(path := [name])
    else st.(path := [name], seen := st.seen + {name},
             functions := st.functions + [Record(name, lineNo, kind, comment)])
  }

  /** A fn line: recorded under its full name, as a method once any impl has been seen. */
  function FnLine(st: ScanState, name: string, lineNo: nat, comment: Option<string>): ScanState {
    var full := FullName(st.path, name);
    if !KeepsFnName(name) || full in st.seen then st
    else st.(seen := st.seen + {full},
             functions := st.functions + [Record(full, lineNo, if st.currentImpl != "" then Method else Function, comment)])
  }

  /** A stripped line the declaration patterns are tried on: not blank, no block-comment
      delimiter on it, and no block comment open. */
  predicate IsCodeLine(st: ScanState, line: string) {
    line != "" && !Contains(line, "/*") && !Contains(line, "*/") && !st.inBlockComment
  }

  /** What a code line does: the first matching pattern decides. */
  function CodeStep(st: ScanState, lineNo: nat, comment: Option<string>, k: LineClass): ScanState {
    match k
    case StructDecl(n) => TypeLine(st, n, Struct, lineNo, comment)
    case EnumDecl(n) => TypeLine(st, n, Enum, lineNo, comment)
    case TraitDecl(n) => TypeLine(st, n, Trait, lineNo, comment)
    case ImplDecl(t) => st.(path := [t], currentImpl := t)
    case FnDecl(n) => FnLine(st, n, lineNo, comment)
    case NoDecl => st
  }

  /** One iteration of the scan, on the stripped line numbered `lineNo` (from 1) whose leading
      comment is `comment` and which the patterns classify as `k`: blank lines are skipped, a line closing a block comment ends it,
      a line opening one (or inside one) is skipped, and other lines are code. */
  function Step(st: ScanState, line: string, lineNo: nat, comment: Option<string>, k: LineClass): ScanState {
    if line == "" then st
    else if Contains(line, "*/") then st.(inBlockComment := false)
    else if Contains(line, "/*") || st.inBlockComment then st.(inBlockComment := true)
    else CodeStep(st, lineNo, comment, k)
  }

  /** The state after the first `n` of the stripped lines `ls`, whose comments are `cs` and
      whose classes are `ks`. */
  function Scan(ls: seq<string>, cs: seq<Option<string>>, ks: seq<LineClass>, n: nat): ScanState
    requires n <= |ls| == |cs| == |ks|
  {
    if n == 0 then Start else Step(Scan(ls, cs, ks, n - 1), ls[n - 1], n, cs[n - 1], ks[n - 1])
  }

  /** The scan of a whole file given as its lines. */
  function ScanFile(lines: seq<string>, pats: RustPatterns): ScanState {
    var ls := Stripped(lines);
    Scan(ls, Comments(lines), Classes(ls, pats), |lines|)
  }

  /** What `extract_functions` returns for a file. */
  function RustFunctions(content: string, pats: RustPatterns): seq<FunctionInfo> {
    ScanFile(SplitLines(content), pats).functions
  }

  /** The step both declaration branches share: a name not seen yet is marked seen and
      recorded with the line's leading comment; a seen name changes nothing. */
  method AddOnce(seenNames: set<string>, functions: seq<FunctionInfo>, name: string, kind: NodeType,
                 lines: seq<string>, lineNum: nat)
    returns (seen': set<string>, functions': seq<FunctionInfo>)
    requires lineNum < |lines|
    ensures name in seenNames ==> seen' == seenNames && functions' == functions
    ensures name !in seenNames ==>
              seen' == seenNames + {name}
              && functions' == functions + [Record(name, lineNum + 1, kind, Comments(lines)[lineNum])]
  {
    seen', functions' := seenNames, functions;
    if name !in seenNames {
      seen' := seenNames + {name};
      var comment := GetLeadingComment(lines, lineNum);
      CommentsAt(lines, lineNum);
      functions' := functions + [Record(name, lineNum + 1, kind, comment)];
    }
  }

  /** The struct, enum and trait branches of the loop, on the scan state `st`. */
  method TypeDeclaration(currentPath: seq<string>, seenNames: set<string>, functions: seq<FunctionInfo>,
                         name: string, kind: NodeType, lines: seq<string>, lineNum: nat,
                         ghost st: ScanState)
    returns (path': seq<string>, seen': set<string>, functions': seq<FunctionInfo>)
    requires lineNum < |lines|
    requires st.path == currentPath && st.seen == seenNames && st.functions == functions
    ensures var r := TypeLine(st, name, kind, lineNum + 1, Comments(lines)[lineNum]);
      path' == r.path && seen' == r.seen && functions' == r.functions
  {
    path', seen', functions' := currentPath, seenNames, functions;
    if !StartsWith(name, "_") {
      path' := [name];
      seen', functions' := AddOnce(seenNames, functions, name, kind, lines, lineNum);
    }
  }

  /** The fn branch of the loop, on the scan state `st`. */
  method FnDeclaration(currentImpl: string, currentPath: seq<string>, seenNames: set<string>,
                       functions: seq<FunctionInfo>, name: string, lines: seq<string>, lineNum: nat,
                       ghost st: ScanState)
    returns (seen': set<string>, functions': seq<FunctionInfo>)
    requires lineNum < |lines|
    requires st.currentImpl == currentImpl && st.path == currentPath && st.seen == seenNames && st.functions == functions
    ensures var r := FnLine(st, name, lineNum + 1, Comments(lines)[lineNum]);
      seen' == r.seen && functions' == r.functions
  {
    seen', functions' := seenNames, functions;
    if !StartsWith(name, "_") || name == "__init__" {
      var fullName := if |currentPath| > 0 then Join(currentPath, ".") + "." + name else name;
      var nodeType := if currentImpl != "" then Method else Function;
      seen', functions' := AddOnce(seenNames, functions, fullName, nodeType, lines, lineNum);
    }
  }

  /** The declaration branches of the loop body, on a code line of the scan state `st`. */
  method CodeLine(currentImpl: string, currentPath: seq<string>, seenNames: set<string>,
                  functions: seq<FunctionInfo>, line: string, lines: seq<string>, lineNum: nat,
                  pats: RustPatterns, ghost st: ScanState)
    returns (impl': string, path': seq<string>, seen': set<string>, functions': seq<FunctionInfo>)
    requires lineNum < |lines|
    requires st.currentImpl == currentImpl && st.path == currentPath && st.seen == seenNames && st.functions == functions
    ensures var r := CodeStep(st, lineNum + 1, Comments(lines)[lineNum], Classify(line, pats));
      impl' == r.currentImpl && path' == r.path && seen' == r.seen && functions' == r.functions
  {
    impl', path', seen', functions' := currentImpl, currentPath, seenNames, functions;
    var structMatch, enumMatch, traitMatch := pats.structName(line), pats.enumName(line), pats.traitName(line);
    if structMatch.Some? || enumMatch.Some? || traitMatch.Some? {
      var name, kind := traitMatch.GetOr(""), Trait;
      if structMatch.Some? {
        name, kind := structMatch.value, Struct;
      } else if enumMatch.Some? {
        name, kind := enumMatch.value, Enum;
      }
      path', seen', functions' := TypeDeclaration(currentPath, seenNames, functions, name, kind, lines, lineNum, st);
      return;
    }
    var implMatch := pats.implType(line);
    if implMatch.Some? {
      impl' := implMatch.value;
      path' := [impl'];
      return;
    }
    var fnMatch := pats.fnName(line);
    if fnMatch.Some? {
      seen', functions' := FnDeclaration(currentImpl, currentPath, seenNames, functions, fnMatch.value, lines, lineNum, st);
    }
  }

  /** The body of the loop, on line `lineNum` and the scan state `st` the loop variables hold. */
  method ScanLine(currentImpl: string, currentPath: seq<string>, inBlockComment: bool, seenNames: set<string>,
                  functions: seq<FunctionInfo>, lines: seq<string>, lineNum: nat, pats: RustPatterns,
                  ghost st: ScanState)
    returns (impl': string, path': seq<string>, inBlock': bool, seen': set<string>, functions': seq<FunctionInfo>)
    requires lineNum < |lines|
    requires st == ScanState(currentPath, currentImpl, inBlockComment, seenNames, functions)
    ensures ScanState(path', impl', inBlock', seen', functions')
            == Step(st, Stripped(lines)[lineNum], lineNum + 1, Comments(lines)[lineNum], Classes(Stripped(lines), pats)[lineNum])
  {
    impl', path', inBlock', seen', functions' := currentImpl, currentPath, inBlockComment, seenNames, functions;
    var line := Strip(lines[lineNum]);
    StrippedAt(lines, 0, lineNum);
    ClassesAt(Stripped(lines), pats, lineNum);
    if line == "" {
      return;
    }
    if Contains(line, "/*") {
      inBlock' := true;
    }
    if Contains(line, "*/") {
      inBlock' := false;
      return;
    }
    if inBlock' {
      return;
    }
    impl', path', seen', functions' := CodeLine(currentImpl, currentPath, seenNames, functions, line, lines, lineNum, pats, st);
  }

  /** `extract_functions`: the scan written as the loop over `enumerate(lines)`. */
  method ExtractFunctions(content: string, pats: RustPatterns) returns (functions: seq<FunctionInfo>)
    ensures functions == RustFunctions(content, pats)
  {
    functions := [];
    var currentImpl := "";
    var currentPath: seq<string> := [];
    var seenNames: set<string> := {};
    var lines := SplitLines(content);
    ghost var ls, cs := Stripped(lines), Comments(lines);
    ghost var ks := Classes(ls, pats);
    var inBlockComment := false;
    for lineNum := 0 to |lines|
      invariant ScanState(currentPath, currentImpl, inBlockComment, seenNames, functions) == Scan(ls, cs, ks, lineNum)
    {
      currentImpl, currentPath, inBlockComment, seenNames, functions :=
        ScanLine(currentImpl, currentPath, inBlockComment, seenNames, functions, lines, lineNum, pats,
                 Scan(ls, cs, ks, lineNum));
    }
  }

  // ---------------------------------------------------------------------------------------
  // Properties of the scan

  /** Line `j` (from 0) is a code line, given the state the scan reached before it. */
  ghost predicate CodeLineAt(ls: seq<string>, cs: seq<Option<string>>, j: nat, ks: seq<LineClass>)
    requires j < |ls| == |cs| == |ks|
  {
    IsCodeLine(Scan(ls, cs, ks, j), ls[j])
  }

  /** What every record of the scan satisfies: it comes from a code line, carries that line's
      comment, has no parameters and is not exported; a type record has a public name, and a
      function record is a method exactly when an impl type was set before its line. */
  ghost predicate EntryFacts(f: FunctionInfo, ls: seq<string>, cs: seq<Option<string>>, ks: seq<LineClass>)
    requires |ls| == |cs| == |ks|
  {
    && 1 <= f.lineNumber <= |ls|
    && CodeLineAt(ls, cs, f.lineNumber - 1, ks)
    && f.leadingComment == cs[f.lineNumber - 1]
    && f.parameters == "" && !f.isExport && !f.isDefaultExport
    && ((f.nodeType.Struct? || f.nodeType.Enum? || f.nodeType.Trait?) ==> !StartsWith(f.name, "_"))
    && ((f.nodeType.Function? || f.nodeType.Method?) ==>
          (f.nodeType.Method? <==> Scan(ls, cs, ks, f.lineNumber - 1).currentImpl != ""))
  }

  /** One step either leaves the records and the seen set alone, or appends one record for the
      current line whose name was unseen and is now seen. The proof only unfolds one step of
      the scan; Dafny finds it from the definitions. */
  lemma StepRecords(ls: seq<string>, cs: seq<Option<string>>, i: nat, ks: seq<LineClass>)
    requires i < |ls| == |cs| == |ks|
    ensures var st, st' := Scan(ls, cs, ks, i), Scan(ls, cs, ks, i + 1);
      || (st'.functions == st.functions && st'.seen == st.seen)
      || (&& st'.functions == st.functions + [st'.functions[|st.functions|]]
          && st'.functions[|st.functions|].name !in st.seen
          && st'.seen == st.seen + {st'.functions[|st.functions|].name}
          && st'.functions[|st.functions|].lineNumber == i + 1)
  {
  }

  /** A record appended by a step satisfies `EntryFacts`. */
  lemma StepEntry(ls: seq<string>, cs: seq<Option<string>>, i: nat, ks: seq<LineClass>)
    requires i < |ls| == |cs| == |ks|
    requires |Scan(ls, cs, ks, i + 1).functions| > |Scan(ls, cs, ks, i).functions|
    ensures EntryFacts(Scan(ls, cs, ks, i + 1).functions[|Scan(ls, cs, ks, i).functions|], ls, cs, ks)
  {
    StepRecords(ls, cs, i, ks);
  }

  /** The seen set is exactly the set of recorded names, and those are distinct. */
  lemma {:induction false} ScanSeen(ls: seq<string>, cs: seq<Option<string>>, n: nat, ks: seq<LineClass>)
    requires n <= |ls| == |cs| == |ks|
    ensures SeenMatches(Scan(ls, cs, ks, n).seen, Scan(ls, cs, ks, n).functions)
  {
    if n > 0 {
      var st, st' := Scan(ls, cs, ks, n - 1), Scan(ls, cs, ks, n);
      ScanSeen(ls, cs, n - 1, ks);
      StepRecords(ls, cs, n - 1, ks);
      if st'.functions != st.functions {
        AppendUnseen(st.seen, st.functions, st'.functions[|st.functions|]);
      }
    }
  }

  /** Line numbers lie in `[1, n]` and strictly increase. */
  lemma {:induction false} ScanLineNumbers(ls: seq<string>, cs: seq<Option<string>>, n: nat, ks: seq<LineClass>)
    requires n <= |ls| == |cs| == |ks|
    ensures LinesWithin(Scan(ls, cs, ks, n).functions, n)
    ensures LinesIncreasing(Scan(ls, cs, ks, n).functions)
  {
    if n > 0 {
      ScanLineNumbers(ls, cs, n - 1, ks);
      StepRecords(ls, cs, n - 1, ks);
    }
  }

  /** Every record satisfies `EntryFacts`. */
  lemma {:induction false} ScanEntries(ls: seq<string>, cs: seq<Option<string>>, n: nat, ks: seq<LineClass>)
    requires n <= |ls| == |cs| == |ks|
    ensures forall k :: 0 <= k < |Scan(ls, cs, ks, n).functions| ==> EntryFacts(Scan(ls, cs, ks, n).functions[k], ls, cs, ks)
  {
    if n > 0 {
      var st, st' := Scan(ls, cs, ks, n - 1), Scan(ls, cs, ks, n);
      ScanEntries(ls, cs, n - 1, ks);
      StepRecords(ls, cs, n - 1, ks);
      forall k | 0 <= k < |st'.functions|
        ensures EntryFacts(st'.functions[k], ls, cs, ks)
      {
        if k < |st.functions| {
          assert st'.functions[k] == st.functions[k];
        } else {
          StepEntry(ls, cs, n - 1, ks);
        }
      }
    }
  }

  /** The path holds at most one name: the last type or impl type seen. */
  lemma {:induction false} ScanPath(ls: seq<string>, cs: seq<Option<string>>, n: nat, ks: seq<LineClass>)
    requires n <= |ls| == |cs| == |ks|
    ensures |Scan(ls, cs, ks, n).path| <= 1
  {
    if n > 0 {
      ScanPath(ls, cs, n - 1, ks);
    }
  }

  /** The records after fewer lines are a prefix of the records after more: the scan only
      ever appends, so the list built up to any line is kept whatever follows. */
  lemma {:induction false} ScanPrefix(ls: seq<string>, cs: seq<Option<string>>, m: nat, n: nat, ks: seq<LineClass>)
    requires m <= n <= |ls| == |cs| == |ks|
    ensures Scan(ls, cs, ks, m).functions <= Scan(ls, cs, ks, n).functions
  {
    if m < n {
      ScanPrefix(ls, cs, m, n - 1, ks);
      StepRecords(ls, cs, n - 1, ks);
    }
  }

  /** Line `j` is an impl header the scanner acts on. */
  ghost predicate ImplLineAt(ls: seq<string>, cs: seq<Option<string>>, j: nat, ks: seq<LineClass>)
    requires j < |ls| == |cs| == |ks|
  {
    CodeLineAt(ls, cs, j, ks) && ks[j].ImplDecl?
  }

  /** The impl type is never reset: it is set exactly when some earlier line was an impl header. */
  lemma {:induction false} ImplRemembered(ls: seq<string>, cs: seq<Option<string>>, n: nat, ks: seq<LineClass>)
    requires n <= |ls| == |cs| == |ks|
    requires ImplNamed(ks)
    ensures Scan(ls, cs, ks, n).currentImpl != "" <==> exists j :: 0 <= j < n && ImplLineAt(ls, cs, j, ks)
  {
    if n > 0 {
      ImplRemembered(ls, cs, n - 1, ks);
      var j := n - 1;
      if ImplLineAt(ls, cs, j, ks) {
        assert ks[j].name != "";
      } else {
        assert Scan(ls, cs, ks, n).currentImpl == Scan(ls, cs, ks, j).currentImpl;
        if Scan(ls, cs, ks, n).currentImpl != "" {
          var w :| 0 <= w < j && ImplLineAt(ls, cs, w, ks);
          assert 0 <= w < n;
        }
      }
    }
  }

  /** What one line does to the path and the records. A line that is not a code line changes
      neither. On a code line the first matching pattern decides: an impl header sets the path
      and the impl type and records nothing; a public struct, enum or trait name becomes the path
      and is recorded once, under its line number; a fn is recorded once under its qualified name,
      as a method when an impl type is set; a private type name changes nothing. The proof only
      unfolds one step of the scan; Dafny finds it from the definitions. */
  lemma LineEffect(ls: seq<string>, cs: seq<Option<string>>, j: nat, ks: seq<LineClass>)
    requires j < |ls| == |cs| == |ks|
    ensures var st, st' := Scan(ls, cs, ks, j), Scan(ls, cs, ks, j + 1);
      if !CodeLineAt(ls, cs, j, ks) then
        st'.path == st.path && st'.seen == st.seen && st'.functions == st.functions
      else match ks[j]
        case ImplDecl(t) => st'.path == [t] && st'.currentImpl == t && st'.functions == st.functions
        case FnDecl(n) =>
          var full := FullName(st.path, n);
          && st'.path == st.path
          && st'.functions == st.functions +
               (if KeepsFnName(n) && full !in st.seen
                then [Record(full, j + 1, if st.currentImpl != "" then Method else Function, cs[j])]
                else [])
        case NoDecl => st' == st
        case _ =>
          var n, kind := ks[j].name, if ks[j].StructDecl? then Struct else if ks[j].EnumDecl? then Enum else Trait;
          if StartsWith(n, "_") then st' == st
          else
            && st'.path == [n]
            && st'.functions == st.functions + (if n in st.seen then [] else [Record(n, j + 1, kind, cs[j])])
  {
  }

  /** The records of a file's lines: distinct names, strictly increasing line numbers within
      the file, each from a code line and carrying that line's leading comment. */
  lemma FileEntries(lines: seq<string>, pats: RustPatterns)
    ensures var fs := ScanFile(lines, pats).functions;
      && DistinctNames(fs)
      && LinesIncreasing(fs)
      && LinesWithin(fs, |lines|)
      && forall k :: 0 <= k < |fs| ==>
           && CodeLineAt(Stripped(lines), Comments(lines), fs[k].lineNumber - 1, Classes(Stripped(lines), pats))
           && fs[k].leadingComment == LeadingCommentOf(lines, fs[k].lineNumber - 1)
  {
    var ls, cs := Stripped(lines), Comments(lines);
    var ks := Classes(ls, pats);
    var fs := Scan(ls, cs, ks, |lines|).functions;
    assert ScanFile(lines, pats).functions == fs;
    ScanSeen(ls, cs, |lines|, ks);
    ScanLineNumbers(ls, cs, |lines|, ks);
    ScanEntries(ls, cs, |lines|, ks);
    forall k | 0 <= k < |fs|
      ensures CodeLineAt(ls, cs, fs[k].lineNumber - 1, ks)
      ensures fs[k].leadingComment == LeadingCommentOf(lines, fs[k].lineNumber - 1)
    {
      assert EntryFacts(fs[k], ls, cs, ks);
      CommentsAt(lines, fs[k].lineNumber - 1);
    }
  }

  /** A type record has a public name, and a function record is a method exactly when an impl
      header came before its line. */
  ghost predicate KindFacts(f: FunctionInfo, ls: seq<string>, cs: seq<Option<string>>, ks: seq<LineClass>)
    requires |ls| == |cs| == |ks|
  {
    && ((f.nodeType.Struct? || f.nodeType.Enum? || f.nodeType.Trait?) ==> !StartsWith(f.name, "_"))
    && ((f.nodeType.Function? || f.nodeType.Method?) ==>
          (f.nodeType.Method? <==> exists j :: 0 <= j < f.lineNumber - 1 && j < |ls| && ImplLineAt(ls, cs, j, ks)))
  }

  /** Struct, enum and trait records have public names, and a function is recorded as a method
      exactly when an impl header came before it. */
  lemma FileKinds(lines: seq<string>, pats: RustPatterns)
    requires ImplCapturesName(pats)
    ensures forall k :: 0 <= k < |ScanFile(lines, pats).functions| ==>
              KindFacts(ScanFile(lines, pats).functions[k], Stripped(lines), Comments(lines), Classes(Stripped(lines), pats))
  {
    var ls, cs := Stripped(lines), Comments(lines);
    var ks := Classes(ls, pats);
    var fs := Scan(ls, cs, ks, |lines|).functions;
    assert ScanFile(lines, pats).functions == fs;
    ScanEntries(ls, cs, |lines|, ks);
    ClassesImplNamed(ls, pats);
    forall k | 0 <= k < |fs|
      ensures KindFacts(fs[k], ls, cs, ks)
    {
      assert EntryFacts(fs[k], ls, cs, ks);
      ImplRemembered(ls, cs, fs[k].lineNumber - 1, ks);
    }
  }

  /** A file of blank lines has no outline. */
  lemma {:induction false} BlankInputNoEntries(content: string, pats: RustPatterns)
    requires forall k :: 0 <= k < |content| ==> IsSpace(content[k])
    ensures RustFunctions(content, pats) == []
  {
    var lines := SplitLines(content);
    SplitLinesOfBlank(content);
    var ls := Stripped(lines);
    forall k | 0 <= k < |ls|
      ensures ls[k] == ""
    {
      StrippedAt(lines, 0, k);
      StripSpec(lines[k]);
    }
    BlankScan(ls, Comments(lines), |lines|, Classes(ls, pats));
  }

  lemma {:induction false} BlankScan(ls: seq<string>, cs: seq<Option<string>>, n: nat, ks: seq<LineClass>)
    requires n <= |ls| == |cs| == |ks|
    requires forall k :: 0 <= k < |ls| ==> ls[k] == ""
    ensures Scan(ls, cs, ks, n) == Start
  {
    if n > 0 {
      BlankScan(ls, cs, n - 1, ks);
    }
  }
}
