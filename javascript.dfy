/** The JavaScript and TypeScript outline extractor: which files it takes, how the records the
    external parser prints become declaration records, and how a record is labelled in the
    outline tree. */
module JavaScriptOutline {
  import opened Wrappers
  import opened Text
  import opened Declarations

  /** The suffixes of the files the extractor takes, compared with the lower-cased name. */
  const Extensions: seq<string> := [".js", ".jsx", ".ts", ".tsx"]

  /** The extractor's own parser script, which it never takes (compared case-sensitively). */
  const ParserScript: string := "javascript_parser.js"

  /** `str.endswith` with a tuple of suffixes. */
  function EndsWithAny(s: string, suffixes: seq<string>): (b: bool)
    ensures b <==> exists e :: e in suffixes && EndsWith(s, e)
  {
    if suffixes == [] then false
    else EndsWith(s, suffixes[0]) || EndsWithAny(s, suffixes[1..])
  }

  /** `supports_file`: a JavaScript or TypeScript name in any letter case, other than the
      parser script itself. */
  function SupportsFile(filename: string): (b: bool)
    ensures b <==> (exists e :: e in Extensions && EndsWith(Lower(filename), e)) && !EndsWith(filename, ParserScript)
  {
    EndsWithAny(Lower(filename), Extensions) && !EndsWith(filename, ParserScript)
  }

  /** A name whose lower-cased form ends neither in `x` nor in `js` or `ts` is not a
      JavaScript or TypeScript name. */
  lemma NotScriptSuffix(filename: string)
    requires |filename| >= 2
    requires LowerChar(filename[|filename| - 1]) != 'x'
    requires LowerChar(filename[|filename| - 1]) == 's' ==>
               LowerChar(filename[|filename| - 2]) != 'j' && LowerChar(filename[|filename| - 2]) != 't'
    ensures !SupportsFile(filename)
  {
    var low := Lower(filename);
    forall e | e in Extensions
      ensures !EndsWith(low, e)
    {
      assert e == ".js" || e == ".jsx" || e == ".ts" || e == ".tsx";
    }
  }

  /** The extension test ignores letter case. */
  lemma SupportsFileExamples()
    ensures SupportsFile("app.TSX") && SupportsFile("Comp.Jsx")
    ensures !SupportsFile("main.py")
  {
    assert Lower("app.TSX")[3..] == ".tsx";
    assert ".tsx" in Extensions;
    assert Lower("Comp.Jsx")[4..] == ".jsx";
    assert ".jsx" in Extensions;
    NotScriptSuffix("main.py");
  }

  /** The parser script is never taken, but its exclusion does not ignore letter case. */
  lemma ParserScriptExamples()
    ensures !SupportsFile("lib/javascript_parser.js")
    ensures SupportsFile("lib/Javascript_Parser.js")
  {
    assert "lib/javascript_parser.js"[4..] == ParserScript;
    assert Lower("lib/Javascript_Parser.js")[21..] == ".js";
    assert ".js" in Extensions;
    assert "lib/Javascript_Parser.js"[4..] != ParserScript by {
      assert "lib/Javascript_Parser.js"[4] == 'J';
    }
  }

  // ---------------------------------------------------------------------------------------
  // From parsed records to declaration records

  /** One record the parser prints, each key possibly missing. */
  datatype ParsedFunction = ParsedFunction(
    name: Option<string>,
    line: Option<int>,
    parameters: Option<string>,
    leadingComment: Option<string>,
    isExport: Option<bool>,
    isDefaultExport: Option<bool>)

  /** The declaration record built from a parsed record that has a name: every missing key
      takes its default (line 0, no parameters, an empty comment, not exported). */
  function ToRecord(p: ParsedFunction): (f: FunctionInfo)
    requires p.name.Some?
    ensures f.name == p.name.value && f.nodeType == Function
    ensures f.lineNumber == (if p.line.Some? then p.line.value else 0)
    ensures f.parameters == (if p.parameters.Some? then p.parameters.value else "")
    ensures f.leadingComment == Some(if p.leadingComment.Some? then p.leadingComment.value else "")
    ensures f.isExport == (p.isExport == Some(true))
    ensures f.isDefaultExport == (p.isDefaultExport == Some(true))
  {
    FunctionInfo(
      p.name.value,
      p.line.GetOr(0),
      Function,
      p.parameters.GetOr(""),
      Some(p.leadingComment.GetOr("")),
      p.isExport.GetOr(false),
      p.isDefaultExport.GetOr(false))
  }

  /** Every parsed record has a name (the one key read without a default). */
  predicate AllNamed(ps: seq<ParsedFunction>) {
    forall k :: 0 <= k < |ps| ==> ps[k].name.Some?
  }

  /** The records of a list of named parsed records, built one after the other. */
  function Records(ps: seq<ParsedFunction>): seq<FunctionInfo>
    requires AllNamed(ps)
  {
    if ps == [] then [] else Records(ps[..|ps| - 1]) + [ToRecord(ps[|ps| - 1])]
  }

  /** What the mapping yields: one record per parsed record; a record without a name raises,
      and the whole list is then given up. */
  function Converted(ps: seq<ParsedFunction>): seq<FunctionInfo> {
    if AllNamed(ps) then Records(ps) else []
  }

  /** The mapping is one to one and keeps the order. */
  lemma {:induction false} RecordsOneToOne(ps: seq<ParsedFunction>)
    requires AllNamed(ps)
    ensures |Records(ps)| == |ps|
    ensures forall k :: 0 <= k < |ps| ==> Records(ps)[k] == ToRecord(ps[k])
  {
    if ps != [] {
      RecordsOneToOne(ps[..|ps| - 1]);
    }
  }

  /** A single nameless record empties the result, whatever the others hold. */
  lemma NamelessDiscardsAll(ps: seq<ParsedFunction>, k: int)
    requires 0 <= k < |ps| && ps[k].name.None?
    ensures Converted(ps) == []
  {
  }

  /** The loop of `extract_functions` over the parsed records. */
  method ConvertRecords(parsed: seq<ParsedFunction>) returns (functions: seq<FunctionInfo>)
    ensures functions == Converted(parsed)
  {
    functions := [];
    for i := 0 to |parsed|
      invariant AllNamed(parsed[..i])
      invariant functions == Records(parsed[..i])
    {
      if parsed[i].name.None? {
        // the KeyError, caught by the handler around the loop
        return [];
      }
      assert parsed[..i + 1][..i] == parsed[..i];
      functions := functions + [ToRecord(parsed[i])];
    }
    assert parsed[..|parsed|] == parsed;
  }

  /** What `extract_functions` returns, given whether the parser script exists and what
      running it on the text prints (nothing for a failed run). */
  function JavaScriptFunctions(content: string, parserExists: bool, run: string -> Option<seq<ParsedFunction>>): seq<FunctionInfo> {
    if !parserExists then []
    else match run(content)
      case None => []
      case Some(ps) => Converted(ps)
  }

  method ExtractFunctions(content: string, parserExists: bool, run: string -> Option<seq<ParsedFunction>>) returns (functions: seq<FunctionInfo>)
    ensures functions == JavaScriptFunctions(content, parserExists, run)
  {
    if !parserExists {
      return [];
    }
    var parsed := run(content);
    if parsed.None? {
      return [];
    }
    functions := ConvertRecords(parsed.value);
  }

  /** The outline of a text: empty without the parser or when its run fails; otherwise one
      record per printed record, in order and with the defaults filled in, as long as every
      printed record has a name. */
  lemma FileOutline(content: string, parserExists: bool, run: string -> Option<seq<ParsedFunction>>)
    ensures !parserExists || run(content).None? ==> JavaScriptFunctions(content, parserExists, run) == []
    ensures parserExists && run(content).Some? && !AllNamed(run(content).value) ==> JavaScriptFunctions(content, parserExists, run) == []
    ensures parserExists && run(content).Some? && AllNamed(run(content).value) ==>
              var ps, fs := run(content).value, JavaScriptFunctions(content, parserExists, run);
              |fs| == |ps| && forall k :: 0 <= k < |ps| ==> fs[k] == ToRecord(ps[k])
  {
    if parserExists && run(content).Some? && AllNamed(run(content).value) {
      RecordsOneToOne(run(content).value);
    }
  }

  // ---------------------------------------------------------------------------------------
  // The tree label

  /** The export marker a record is shown with. */
  function ExportPrefix(f: FunctionInfo): string {
    if !f.isExport then "" else if f.isDefaultExport then "export default " else "export "
  }

  /** `format_function_for_tree`. */
  function FormatFunctionForTree(f: FunctionInfo): string {
    var call := if f.parameters != "" then f.name + "(" + f.parameters + ")" else f.name + "()";
    if f.isExport then (if f.isDefaultExport then "export default " else "export ") + call else call
  }

  /** Both branches of the label agree: the label is always the export marker, the name and
      the parameters in parentheses, and the default flag shows only on an exported record. */
  lemma LabelShape(f: FunctionInfo, b: bool)
    ensures FormatFunctionForTree(f) == ExportPrefix(f) + f.name + "(" + f.parameters + ")"
    ensures !f.isExport ==> FormatFunctionForTree(f.(isDefaultExport := b)) == FormatFunctionForTree(f)
  {
    if f.parameters == "" {
      assert f.name + "(" + f.parameters + ")" == f.name + "()";
    }
  }

  /** For a name without spaces, as the parser gives, the label starts with the export marker
      exactly when the record is exported, and with the default-export marker exactly when it is
      exported as the default. */
  lemma ExportVisible(f: FunctionInfo)
    requires ' ' !in f.name
    ensures StartsWith(FormatFunctionForTree(f), "export ") <==> f.isExport
    ensures StartsWith(FormatFunctionForTree(f), "export default ") <==> f.isExport && f.isDefaultExport
  {
    LabelShape(f, false);
    var bare := f.name + "(" + f.parameters + ")";
    var s := FormatFunctionForTree(f);
    if !f.isExport {
      assert s == bare;
      NoMarkerBefore(f.name, f.parameters, "export ");
    } else if !f.isDefaultExport {
      assert s == "export " + bare;
      NoMarkerBefore(f.name, f.parameters, "default ");
      assert "export default " == "export " + "default ";
      StartsWithShared("export ", bare, "default ");
    } else {
      assert s == "export default " + bare;
    }
  }

  /** A name without spaces, followed by a parenthesis, never begins with a word and a space. */
  lemma NoMarkerBefore(name: string, params: string, marker: string)
    requires ' ' !in name
    requires |marker| >= 1 && marker[|marker| - 1] == ' '
    requires forall k :: 0 <= k < |marker| - 1 ==> marker[k] != '('
    ensures !StartsWith(name + "(" + params + ")", marker)
  {
    var s := name + "(" + params + ")";
    if |name| < |marker| {
      assert s[|name|] == '(';
    } else {
      assert s[|marker| - 1] == name[|marker| - 1];
    }
  }

  /** A common prefix does not change whether one string starts with another. */
  lemma StartsWithShared(p: string, t: string, u: string)
    ensures StartsWith(p + t, p + u) <==> StartsWith(t, u)
  {
    if StartsWith(p + t, p + u) {
      assert (p + t)[|p|..|p| + |u|] == t[..|u|];
      assert (p + u)[|p|..] == u;
    }
    if StartsWith(t, u) {
      assert (p + t)[..|p| + |u|] == p + t[..|u|];
    }
  }
}
