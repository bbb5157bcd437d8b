/** The Solidity outline extractor: a scanner over the lines of a file that records contracts,
    interfaces and functions, qualifying functions by the last contract or interface seen. */
module SolidityOutline {
  import opened Wrappers
  import opened Text
  import opened Declarations
  import opened Seqs

  /** The regular-expression searches, left abstract. The contract and interface searches give
      group 1 (the captured name) or None when the pattern does not match a line. The function
      search gives None when it does not match, and otherwise `Some(g)` where `g` is group 1,
      None when the optional name group took no part in the match. */
  datatype SolidityPatterns = SolidityPatterns(
    contractName: string -> Option<string>,
    interfaceName: string -> Option<string>,
    functionName: string -> Option<Option<string>>)

  /** `supports_file`: the lower-cased name ends in `.sol`. */
  function SupportsFile(filename: string): (b: bool)
    ensures b <==> |filename| >= 4 && filename[|filename| - 4] == '.'
                   && LowerChar(filename[|filename| - 3]) == 's'
                   && LowerChar(filename[|filename| - 2]) == 'o'
                   && LowerChar(filename[|filename| - 1]) == 'l'
  {
    var low := Lower(filename);
    assert EndsWith(low, ".sol") <==> |low| >= 4 && low[|low| - 4..] == ".sol";
    assert |low| >= 4 ==> (low[|low| - 4..] == ".sol" <==>
      low[|low| - 4] == '.' && low[|low| - 3] == 's' && low[|low| - 2] == 'o' && low[|low| - 1] == 'l');
    EndsWith(low, ".sol")
  }

  // ---------------------------------------------------------------------------------------
  // Names

  /** `match.group(1) if match.group(1) else 'fallback'`: an absent or empty group names the
      function `fallback`. */
  function FunctionName(group: Option<string>): (name: string)
    ensures name != ""
    ensures group.Some? && group.value != "" ==> name == group.value
    ensures (group.None? || group.value == "") ==> name == "fallback"
  {
    if group.Some? && group.value != "" then group.value else "fallback"
  }

  /** `should_include_function`: a non-empty name starting with `_`, or `constructor`, is left out. */
  predicate ShouldInclude(name: string) {
    !(name != "" && (StartsWith(name, "_") || name == "constructor"))
  }

  // ---------------------------------------------------------------------------------------
  // The line scanner

  /** What the patterns find on one line: the contract name, or failing that the interface
      name, and the function match. */
  datatype LineClass = LineClass(container: Option<string>, fn: Option<Option<string>>)

  function Classify(line: string, pats: SolidityPatterns): LineClass {
    var c := pats.contractName(line);
    LineClass(if c.Some? then c else pats.interfaceName(line), pats.functionName(line))
  }

  /** The class of each line (none past the end). */
  function ClassFn(lines: seq<string>, pats: SolidityPatterns): nat -> LineClass {
    (j: nat) => if j < |lines| then Classify(lines[j], pats) else LineClass(None, None)
  }

  /** The class of every line of a file. */
  function Classes(lines: seq<string>, pats: SolidityPatterns): (ks: seq<LineClass>)
    ensures |ks| == |lines|
  {
    Tabulate(ClassFn(lines, pats), 0, |lines|)
  }

  lemma ClassesAt(lines: seq<string>, pats: SolidityPatterns, j: nat)
    requires j < |lines|
    ensures Classes(lines, pats)[j] == Classify(lines[j], pats)
  {
    TabulateAt(ClassFn(lines, pats), 0, |lines|, j);
  }

  /** The scanner's variables: the current path, the names recorded so far and the records.
      (`current_contract` is assigned but never read, so it is not part of the state.) */
  datatype ScanState = ScanState(path: seq<string>, seen: set<string>, functions: seq<FunctionInfo>)

  const Start := ScanState([], {}, [])

  /** A name not seen yet is marked seen and recorded on line `lineNo`; a seen name changes nothing. */
  function AddName(st: ScanState, name: string, lineNo: nat): ScanState {
    if name in st.seen then st
    else st.(seen := st.seen + {name}, functions := st.functions + [Record(name, lineNo, Function, None)])
  }

  /** A contract or interface line: the name becomes the path and is recorded once. */
  function ContainerStep(st: ScanState, k: LineClass, lineNo: nat): ScanState {
    match k.container
    case Some(n) => AddName(st.(path := [n]), n, lineNo)
    case None => st
  }

  /** A function line: an included name is recorded once under its full path. */
  function FunctionStep(st: ScanState, k: LineClass, lineNo: nat): ScanState {
    match k.fn
    case Some(g) =>
      var name := FunctionName(g);
      if ShouldInclude(name) then AddName(st, FullPath(st.path, name), lineNo) else st
    case None => st
  }

  /** One iteration: the container patterns, then the function pattern on the same line. */
  function Step(st: ScanState, k: LineClass, lineNo: nat): ScanState {
    FunctionStep(ContainerStep(st, k, lineNo), k, lineNo)
  }

  /** The state after the first `n` lines, whose classes are `ks`. */
  function Scan(ks: seq<LineClass>, n: nat): ScanState
    requires n <= |ks|
  {
    if n == 0 then Start else Step(Scan(ks, n - 1), ks[n - 1], n)
  }

  /** What `extract_functions` returns for a file: the scan of its lines split on `\n`. */
  function SolidityFunctions(content: string, pats: SolidityPatterns): seq<FunctionInfo> {
    var lines := Split(content, '\n');
    Scan(Classes(lines, pats), |lines|).functions
  }

  /** The loop over the contract and interface patterns: the first that matches sets the path
      and records its name once, and ends the loop. */
  method ContainerLine(currentPath: seq<string>, seenNames: set<string>, functions: seq<FunctionInfo>,
                       line: string, i: nat, pats: SolidityPatterns, ghost st: ScanState)
    returns (path': seq<string>, seen': set<string>, functions': seq<FunctionInfo>)
    requires st == ScanState(currentPath, seenNames, functions)
    ensures ScanState(path', seen', functions') == ContainerStep(st, Classify(line, pats), i + 1)
  {
    path', seen', functions' := currentPath, seenNames, functions;
    var patterns := [pats.contractName, pats.interfaceName];
    var p := 0;
    while p < |patterns|
      invariant 0 <= p <= |patterns|
      invariant p > 0 ==> pats.contractName(line).None?
      invariant p > 1 ==> pats.interfaceName(line).None?
      invariant path' == currentPath && seen' == seenNames && functions' == functions
    {
      var m := patterns[p](line);
      if m.Some? {
        var name := m.value;
        path' := [name];
        if name !in seen' {
          seen' := seen' + {name};
          functions' := functions' + [Record(name, i + 1, Function, None)];
        }
        break;
      }
      p := p + 1;
    }
  }

  /** The function branch of the loop body. */
  method FunctionLine(currentPath: seq<string>, seenNames: set<string>, functions: seq<FunctionInfo>,
                      line: string, i: nat, pats: SolidityPatterns, ghost st: ScanState)
    returns (seen': set<string>, functions': seq<FunctionInfo>)
    requires st == ScanState(currentPath, seenNames, functions)
    ensures ScanState(currentPath, seen', functions') == FunctionStep(st, Classify(line, pats), i + 1)
  {
    seen', functions' := seenNames, functions;
    var m := pats.functionName(line);
    if m.Some? {
      var name := if m.value.Some? && m.value.value != "" then m.value.value else "fallback";
      if ShouldInclude(name) {
        var fullName := FullPath(currentPath, name);
        if fullName !in seenNames {
          seen' := seenNames + {fullName};
          functions' := functions + [Record(fullName, i + 1, Function, None)];
        }
      }
    }
  }

  /** `extract_functions`: the loop over the lines of the file. */
  method ExtractFunctions(content: string, pats: SolidityPatterns) returns (functions: seq<FunctionInfo>)
    ensures functions == SolidityFunctions(content, pats)
  {
    functions := [];
    var currentPath: seq<string> := [];
    var seenNames: set<string> := {};
    var lines := Split(content, '\n');
    ghost var ks := Classes(lines, pats);
    for i := 0 to |lines|
      invariant ScanState(currentPath, seenNames, functions) == Scan(ks, i)
    {
      ghost var st := Scan(ks, i);
      ClassesAt(lines, pats, i);
      currentPath, seenNames, functions := ContainerLine(currentPath, seenNames, functions, lines[i], i, pats, st);
      ghost var mid := ScanState(currentPath, seenNames, functions);
      seenNames, functions := FunctionLine(currentPath, seenNames, functions, lines[i], i, pats, mid);
    }
  }

  // ---------------------------------------------------------------------------------------
  // Properties of the scan

  /** Line numbers never decrease along the list. */
  ghost predicate LinesNonDecreasing(fs: seq<FunctionInfo>) {
    forall a, b :: 0 <= a < b < |fs| ==> fs[a].lineNumber <= fs[b].lineNumber
  }

  /** Adding a name either changes nothing or appends one record, for a name that was unseen
      and is now seen. The proof only unfolds the definition; Dafny finds it unaided. */
  lemma AddNameRecords(st: ScanState, name: string, lineNo: nat)
    ensures var st' := AddName(st, name, lineNo);
      && st'.path == st.path
      && (|| (st'.functions == st.functions && st'.seen == st.seen)
          || (&& name !in st.seen
              && st'.seen == st.seen + {name}
              && st'.functions == st.functions + [Record(name, lineNo, Function, None)]))
  {
  }

  /** The seen set is exactly the set of recorded names, and those are distinct. */
  lemma {:induction false} ScanSeen(ks: seq<LineClass>, n: nat)
    requires n <= |ks|
    ensures SeenMatches(Scan(ks, n).seen, Scan(ks, n).functions)
  {
    if n > 0 {
      var st := Scan(ks, n - 1);
      ScanSeen(ks, n - 1);
      var mid := ContainerStep(st, ks[n - 1], n);
      if ks[n - 1].container.Some? {
        var c := ks[n - 1].container.value;
        if c !in st.seen {
          AppendUnseen(st.seen, st.functions, Record(c, n, Function, None));
        }
      }
      if ks[n - 1].fn.Some? && ShouldInclude(FunctionName(ks[n - 1].fn.value)) {
        var full := FullPath(mid.path, FunctionName(ks[n - 1].fn.value));
        if full !in mid.seen {
          AppendUnseen(mid.seen, mid.functions, Record(full, n, Function, None));
        }
      }
    }
  }

  /** One line adds at most two records (its container and its function), both under its number.
      The proof only unfolds one step of the scan; Dafny finds it from the definitions. */
  lemma StepGrowth(st: ScanState, k: LineClass, lineNo: nat)
    ensures var st' := Step(st, k, lineNo);
      && st.functions <= st'.functions
      && |st'.functions| <= |st.functions| + 2
      && forall j :: |st.functions| <= j < |st'.functions| ==> st'.functions[j].lineNumber == lineNo
  {
    var mid := ContainerStep(st, k, lineNo);
    assert st.functions <= mid.functions && |mid.functions| <= |st.functions| + 1;
  }

  /** Line numbers lie in `[1, n]` and never decrease; there are at most two records per line. */
  lemma {:induction false} ScanLineNumbers(ks: seq<LineClass>, n: nat)
    requires n <= |ks|
    ensures LinesWithin(Scan(ks, n).functions, n)
    ensures LinesNonDecreasing(Scan(ks, n).functions)
    ensures |Scan(ks, n).functions| <= 2 * n
  {
    if n > 0 {
      ScanLineNumbers(ks, n - 1);
      StepGrowth(Scan(ks, n - 1), ks[n - 1], n);
    }
  }

  /** The records after fewer lines are a prefix of the records after more. */
  lemma {:induction false} ScanPrefix(ks: seq<LineClass>, m: nat, n: nat)
    requires m <= n <= |ks|
    ensures Scan(ks, m).functions <= Scan(ks, n).functions
  {
    if m < n {
      ScanPrefix(ks, m, n - 1);
      StepGrowth(Scan(ks, n - 1), ks[n - 1], n);
    }
  }

  /** The path is empty until a contract or interface line, and afterwards holds the name of
      the last one. */
  lemma {:induction false} ScanPath(ks: seq<LineClass>, n: nat)
    requires n <= |ks|
    ensures Scan(ks, n).path == [] <==> forall j :: 0 <= j < n ==> ks[j].container.None?
    ensures forall j :: 0 <= j < n && ks[j].container.Some? && (forall i :: j < i < n ==> ks[i].container.None?)
              ==> Scan(ks, n).path == [ks[j].container.value]
  {
    if n > 0 {
      ScanPath(ks, n - 1);
      StepPath(Scan(ks, n - 1), ks[n - 1], n);
      forall j | 0 <= j < n && ks[j].container.Some? && (forall i :: j < i < n ==> ks[i].container.None?)
        ensures Scan(ks, n).path == [ks[j].container.value]
      {
        if j < n - 1 {
          assert ks[n - 1].container.None?;
        }
      }
    }
  }

  /** Only a container line changes the path, to its name. */
  lemma StepPath(st: ScanState, k: LineClass, lineNo: nat)
    ensures Step(st, k, lineNo).path == (if k.container.Some? then [k.container.value] else st.path)
  {
  }

  /** Where a record comes from: the container name of its line, or an included function name
      of its line qualified by the path in force on that line. */
  ghost predicate EntryFacts(f: FunctionInfo, ks: seq<LineClass>) {
    && 1 <= f.lineNumber <= |ks|
    && f.nodeType == Function && f.leadingComment.None? && f.parameters == ""
    && !f.isExport && !f.isDefaultExport
    && var k := ks[f.lineNumber - 1];
       || k.container == Some(f.name)
       || (&& k.fn.Some?
           && ShouldInclude(FunctionName(k.fn.value))
           && f.name == FullPath(ContainerStep(Scan(ks, f.lineNumber - 1), k, f.lineNumber).path,
                                 FunctionName(k.fn.value)))
  }

  /** Every record of `fs` from index `lo` on satisfies `EntryFacts`. */
  ghost predicate EntriesFrom(fs: seq<FunctionInfo>, lo: nat, ks: seq<LineClass>) {
    forall j :: lo <= j < |fs| ==> EntryFacts(fs[j], ks)
  }

  /** A record appended by a step satisfies `EntryFacts`. */
  lemma StepEntries(ks: seq<LineClass>, i: nat)
    requires i < |ks|
    ensures EntriesFrom(Scan(ks, i + 1).functions, |Scan(ks, i).functions|, ks)
  {
    var st, k := Scan(ks, i), ks[i];
    var mid := ContainerStep(st, k, i + 1);
    var st' := Scan(ks, i + 1);
    assert st' == FunctionStep(mid, k, i + 1);
    forall j | |st.functions| <= j < |st'.functions|
      ensures EntryFacts(st'.functions[j], ks)
    {
      if j < |mid.functions| {
        assert mid.functions == st.functions + [Record(k.container.value, i + 1, Function, None)];
        assert st'.functions[j] == mid.functions[j];
      } else {
        var name := FunctionName(k.fn.value);
        assert st'.functions == mid.functions + [Record(FullPath(mid.path, name), i + 1, Function, None)];
      }
    }
  }

  /** Every record satisfies `EntryFacts`. */
  lemma {:induction false} ScanEntries(ks: seq<LineClass>, n: nat)
    requires n <= |ks|
    ensures EntriesFrom(Scan(ks, n).functions, 0, ks)
  {
    if n > 0 {
      var st, st' := Scan(ks, n - 1), Scan(ks, n);
      ScanEntries(ks, n - 1);
      StepGrowth(st, ks[n - 1], n);
      StepEntries(ks, n - 1);
      forall j | 0 <= j < |st'.functions|
        ensures EntryFacts(st'.functions[j], ks)
      {
        if j < |st.functions| {
          assert st'.functions[j] == st.functions[j];
        }
      }
    }
  }

  /** A contract or interface name is recorded whatever it looks like (no underscore filter):
      after its line it is among the recorded names, and the path is that name alone. */
  lemma ContainerRecorded(ks: seq<LineClass>, j: nat)
    requires j < |ks| && ks[j].container.Some?
    ensures Scan(ks, j + 1).path == [ks[j].container.value]
    ensures ks[j].container.value in Scan(ks, j + 1).seen
  {
  }

  /** The records of a file: distinct names, line numbers within the file that never decrease,
      at most two per line, and each from its line as `EntryFacts` says. */
  lemma FileEntries(content: string, pats: SolidityPatterns)
    ensures var lines := Split(content, '\n');
      var fs := SolidityFunctions(content, pats);
      && DistinctNames(fs)
      && LinesWithin(fs, |lines|)
      && LinesNonDecreasing(fs)
      && |fs| <= 2 * |lines|
      && EntriesFrom(fs, 0, Classes(lines, pats))
  {
    var lines := Split(content, '\n');
    var ks := Classes(lines, pats);
    assert SolidityFunctions(content, pats) == Scan(ks, |lines|).functions;
    ScanSeen(ks, |lines|);
    ScanLineNumbers(ks, |lines|);
    ScanEntries(ks, |lines|);
  }

  /** A contract with a function on the next line yields the contract and the qualified
      function: `MyContract` and `MyContract.myFunction`. */
  lemma ContractExample()
    ensures var ks := [LineClass(Some("MyContract"), None), LineClass(None, Some(Some("myFunction")))];
      Names(Scan(ks, 2).functions) == ["MyContract", "MyContract.myFunction"]
  {
    var ks := [LineClass(Some("MyContract"), None), LineClass(None, Some(Some("myFunction")))];
    FullPathQualifies("MyContract", "myFunction");
    assert "MyContract" + "." + "myFunction" == "MyContract.myFunction";
    var st1 := Scan(ks, 1);
    assert st1.path == ["MyContract"] && st1.seen == {"MyContract"};
    assert "MyContract.myFunction" != "MyContract";
    assert st1.functions == [Record("MyContract", 1, Function, None)];
    assert "myFunction"[..1] == "m" && |"myFunction"| != |"constructor"|;
    assert Scan(ks, 2) == FunctionStep(st1, ks[1], 2);
    var fs := Scan(ks, 2).functions;
    assert fs == [Record("MyContract", 1, Function, None), Record("MyContract.myFunction", 2, Function, None)];
    assert Names(fs) == [fs[0].name] + Names(fs[1..]);
    assert Names(fs[1..]) == [fs[1].name] + Names(fs[2..]);
  }

  /** A function on the same line as its contract is still found, and a function match without
      a name is recorded as `fallback`; the constructor is left out. */
  lemma SameLineExample()
    ensures var ks := [LineClass(Some("A"), Some(None)), LineClass(None, Some(Some("constructor")))];
      Names(Scan(ks, 2).functions) == ["A", "A.fallback"]
  {
    var ks := [LineClass(Some("A"), Some(None)), LineClass(None, Some(Some("constructor")))];
    FullPathQualifies("A", "fallback");
    assert "A" + "." + "fallback" == "A.fallback";
    assert "A.fallback" != "A";
    assert !ShouldInclude("constructor");
    var st1 := Scan(ks, 1);
    var mid := ContainerStep(Start, ks[0], 1);
    assert mid.path == ["A"] && mid.seen == {"A"} && mid.functions == [Record("A", 1, Function, None)];
    assert "fallback"[..1] == "f" && |"fallback"| != |"constructor"|;
    assert st1 == FunctionStep(mid, ks[0], 1);
    assert st1.functions == [Record("A", 1, Function, None), Record("A.fallback", 1, Function, None)];
    assert Scan(ks, 2) == FunctionStep(st1, ks[1], 2);
    var fs := Scan(ks, 2).functions;
    assert fs == [Record("A", 1, Function, None), Record("A.fallback", 1, Function, None)];
    assert Names(fs) == [fs[0].name] + Names(fs[1..]);
    assert Names(fs[1..]) == [fs[1].name] + Names(fs[2..]);
  }
}
