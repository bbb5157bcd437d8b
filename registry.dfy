/** The outline command: the extractor interface, the list of registered extractors, and the
    choice of an extractor for a file. */
module OutlineCli {
  import opened Wrappers
  import opened Declarations
  import JavaScriptOutline
  import PythonOutline
  import RustOutline
  import SolidityOutline

  /** The implementations of the extractor interface, each answering `supports_file` and
      `extract_functions`. */
  datatype Extractor = JavaScript | Python | Rust | Solidity

  /** What the extractors take from outside the text: the Python parser, the line patterns of
      the Rust and Solidity extractors, whether the JavaScript parser script is present, and
      what running it prints. */
  datatype Environment = Environment(
    pythonParse: string -> Option<PythonOutline.Node>,
    rustPatterns: RustOutline.RustPatterns,
    solidityPatterns: SolidityOutline.SolidityPatterns,
    jsParserExists: bool,
    jsRun: string -> Option<seq<JavaScriptOutline.ParsedFunction>>)

  /** `supports_file` of each extractor. */
  function SupportsFile(e: Extractor, filename: string): bool {
    match e
    case JavaScript => JavaScriptOutline.SupportsFile(filename)
    case Python => PythonOutline.SupportsFile(filename)
    case Rust => RustOutline.SupportsFile(filename)
    case Solidity => SolidityOutline.SupportsFile(filename)
  }

  /** `extract_functions` of each extractor. */
  function ExtractFunctions(e: Extractor, content: string, env: Environment): seq<FunctionInfo> {
    match e
    case JavaScript => JavaScriptOutline.JavaScriptFunctions(content, env.jsParserExists, env.jsRun)
    case Python => PythonOutline.PythonFunctions(content, env.pythonParse)
    case Rust => RustOutline.RustFunctions(content, env.rustPatterns)
    case Solidity => SolidityOutline.SolidityFunctions(content, env.solidityPatterns)
  }

  /** The extractors `get_extractor_for_file` tries, in order. */
  const Registry: seq<Extractor> := [JavaScript]

  /** What each extractor of `es` answers for the file, in order. */
  function Answers(es: seq<Extractor>, filename: string): (bs: seq<bool>)
    ensures |bs| == |es|
    ensures forall k :: 0 <= k < |es| ==> bs[k] == SupportsFile(es[k], filename)
  {
    seq(|es|, k requires 0 <= k < |es| => SupportsFile(es[k], filename))
  }

  /** The first position from `i` on that holds `true`, or `|bs|` when there is none. */
  function FirstTrue(bs: seq<bool>, i: nat): (k: nat)
    requires i <= |bs|
    ensures i <= k <= |bs|
    ensures forall j :: i <= j < k ==> !bs[j]
    ensures k < |bs| ==> bs[k]
    decreases |bs| - i
  {
    if i == |bs| || bs[i] then i else FirstTrue(bs, i + 1)
  }

  /** The loop of `get_extractor_for_file` over `es`: if some extractor supports the file, the
      first one that does is taken; if none is taken, no extractor of `es` supports it. */
  function FirstSupporting(es: seq<Extractor>, filename: string): (r: Option<Extractor>)
    ensures r.None? <==> forall k :: 0 <= k < |es| ==> !SupportsFile(es[k], filename)
    ensures r.Some? ==> exists k :: 0 <= k < |es| && es[k] == r.value && SupportsFile(es[k], filename)
                          && forall j :: 0 <= j < k ==> !SupportsFile(es[j], filename)
  {
    var bs := Answers(es, filename);
    var k := FirstTrue(bs, 0);
    if k < |es| then Some(es[k]) else None
  }

  /** `get_extractor_for_file`: with only the JavaScript extractor registered, a file gets an
      extractor exactly when it is a JavaScript or TypeScript file, and then that one. */
  function GetExtractorForFile(filename: string): (r: Option<Extractor>)
    ensures r.Some? <==> JavaScriptOutline.SupportsFile(filename)
    ensures r.Some? ==> r.value == JavaScript
  {
    var r := FirstSupporting(Registry, filename);
    assert Registry[0] == JavaScript;
    r
  }

  /** `extract_outline`: nothing for a path that is not a file or that no registered extractor
      takes; otherwise what the chosen extractor finds in the file's text. */
  function ExtractOutline(isFile: bool, path: string, content: string, env: Environment): (fs: seq<FunctionInfo>)
    ensures !isFile ==> fs == []
    ensures !JavaScriptOutline.SupportsFile(path) ==> fs == []
    ensures isFile && JavaScriptOutline.SupportsFile(path) ==>
              fs == JavaScriptOutline.JavaScriptFunctions(content, env.jsParserExists, env.jsRun)
  {
    if !isFile then []
    else
      match GetExtractorForFile(path)
      case None => []
      case Some(e) => ExtractFunctions(e, content, env)
  }

  /** The Python, Rust and Solidity extractors take their own files, but the outline command
      does not reach them, since the registry holds only the JavaScript extractor. */
  lemma UnregisteredExtractors()
    ensures SupportsFile(Python, "tool.py") && GetExtractorForFile("tool.py").None?
    ensures SupportsFile(Rust, "lib.rs") && GetExtractorForFile("lib.rs").None?
    ensures SupportsFile(Solidity, "Token.sol") && GetExtractorForFile("Token.sol").None?
  {
    JavaScriptOutline.NotScriptSuffix("tool.py");
    JavaScriptOutline.NotScriptSuffix("lib.rs");
    JavaScriptOutline.NotScriptSuffix("Token.sol");
  }
}
