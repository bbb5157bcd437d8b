# cpai, modelled in Dafny

cpai gathers the source files of a project into one markdown text for a language model, and can
also give an outline of a file: the classes, types and functions it declares, each under a
dotted path, with its line number and leading comment. This project models the parts of cpai
that decide that output:

- the four outline extractors (`cpai/outline/rust.py`, `solidity.py`, `python.py`, and the part
  of `javascript.py` that runs once the external parser has answered);
- the outline command's choice of an extractor (`cpai/outline/cli.py`);
- three steps of the main command (`cpai/main.py`): reading `cpai.config.json` over the
  defaults, choosing the walked files to include, and rendering the chosen files.

The modules follow the source files:

- `Declarations` holds the declaration record and the path helper all the extractors share.
- `RustOutline`, `SolidityOutline`, `PythonOutline` and `JavaScriptOutline` are the extractors.
- `OutlineCli` is the registry.
- `CpaiMain` holds the main-command steps.
- `Text`, `StringOrder`, `Seqs` and `Wrappers` are the Python string operations, `sorted()` on
  strings, and small utilities.

Each extractor comes in two forms. An imperative method mirrors the loop of the source. A
specification function describes the same computation one line (or one tree node) at a time.
Each method is proved equal to its function. The properties the source promises are proved
about the function: distinct names, line numbers, the qualification of names, leading comments,
and the method/function kind.

The Python visitor is a `class` whose fields are the variables the visitor's methods update:
the current path, the seen names and the records. Its recursive `Visit` is proved against
`VisitTree`. `VisitTree` is in turn proved equal to an independent reference definition: the
first occurrence of each includable full name, taken in pre-order.

Conventions in the model:

- Python's `str` is `seq<char>`. Letter case is folded on ASCII letters only.
- Paths use `/` as the separator (POSIX `os.path`).
- The regular expressions that find declarations are parameters. The scanners fix the order
  in which the patterns are tried and what each match does. The Rust patterns take a stripped
  line and give group 1 of a search, or nothing. The Solidity patterns take the raw line. Its
  contract and interface patterns give group 1 or nothing. Its function pattern gives
  `Option<Option<string>>`: nothing without a match, and an inner nothing for a match whose
  group 1 did not take part.
- The comment regexes of `get_leading_comment` are written out concretely.

Where the code and its tests disagree, the model follows the code:

- `PythonOutline.ClassMethodExample`: `python.py` appends the class name to the path before it
  records the class. A class `MyClass` is therefore recorded as `MyClass.MyClass`, while
  `tests/test_tree.py` expects `MyClass`.
- `CpaiMain.ReadConfig`: only `FileNotFoundError` is caught. A file that is not valid JSON
  therefore raises (an `Err` in the model), while `tests/test_cpai.py` expects the defaults.
- `OutlineCli.UnregisteredExtractors`: the registry lists only the JavaScript extractor. So
  `.py`, `.rs` and `.sol` files get no extractor from the outline command, even though their
  extractors accept them.

## Model

| member | source | states |
|---|---|---|
| Declarations.NonEmpty | cpai/outline/solidity.py:32 | `filter(None, parts)` keeps exactly the non-empty parts, and leaves no empty part |
| Declarations.NonEmptyAppend | cpai/outline/solidity.py:32 | filtering a concatenation is concatenating the filtered parts, so order and multiplicity are kept |
| Declarations.NonEmptyKeeps | cpai/outline/solidity.py:32 | a list without empty parts is left as it is |
| Declarations.FullPathQualifies | cpai/outline/python.py:38-41 | inside a scope `c` the full path of `name` is `c.name`; outside any scope it is `name` itself |
| Declarations.FullPathJoins | cpai/outline/python.py:38-41 | with every segment non-empty, the full path is the path and the name joined with dots, at any depth |
| Declarations.FullPathExtends | cpai/outline/python.py:38-41 | under a path extended by a named scope `c`, the full path of `name` is the full path of `c`, a dot, and `name` |
| Declarations.FullPathSkipsUnnamed | cpai/outline/python.py:38-41 | an empty path segment adds nothing to the full path |
| Declarations.FullPathNested | cpai/outline/python.py:38-41 | a method `run` of class `Inner` nested in class `Outer` is `Outer.Inner.run` |
| Declarations.AppendUnseen | cpai/outline/rust.py:90-92 | recording an unseen name keeps the bookkeeping: the seen set is exactly the recorded names, and those names are pairwise distinct |
| Text.StripSpec | cpai/outline/rust.py:71 | `strip()` gives the empty string exactly for all-whitespace text. Otherwise it gives the slice of the text after its whitespace run at the start and before its whitespace run at the end; the slice neither starts nor ends with whitespace |
| Text.Split | cpai/outline/solidity.py:43 | `split('\n')` gives at least one piece, no piece holds a newline, and joining the pieces with newlines gives back the text |
| Text.SplitJoin | cpai/outline/solidity.py:43 | splitting the newline-join of newline-free pieces gives back those pieces |
| Text.SplitFirst | cpai/outline/python.py:34 | the first piece of `split(sep)` is a prefix of the text followed by a separator or by the end |
| Text.SplitLines | cpai/outline/rust.py:66 | `splitlines()` gives no lines exactly for the empty text, and no line holds a line boundary |
| Text.SplitLinesOfNewlines | cpai/outline/rust.py:66 | for a text whose only line boundaries are newlines, `splitlines()` is `split('\n')` of the text without its final newline, and nothing for the empty text |
| Text.ContainsOccurs | cpai/main.py:50 | `exclude in rel_path` holds exactly when the exclude string occurs at some position of the path |
| StringOrder.SortedSetSpec | cpai/main.py:63 | `sorted()` of a set of strings lists every member exactly once, in strictly increasing code-point order |
| StringOrder.SortedSetUnique | cpai/main.py:63 | any strictly increasing list of exactly the set's members is the sorted list |
| StringOrder.SortStrings | cpai/main.py:63 | the sort by repeated extraction of the least element gives `sorted()` of the set |
| RustOutline.SupportsFile | cpai/outline/rust.py:22-24 | a name is taken exactly when it ends in `.rs`, in any letter case |
| RustOutline.TrailingCommentLeftmost | cpai/outline/rust.py:55-61 | the comment search reports a suffix of the line that is a `//` or closed `/* */` comment running to the end of the line; it reports the leftmost such match, and reports none only when none exists |
| RustOutline.DropCommentDelimitersSpec | cpai/outline/rust.py:60 | removing the comment delimiters adds nothing, leaves no `*`, and leaves text without `/` or `*` unchanged |
| RustOutline.DropCommentDelimitersKeeps | cpai/outline/rust.py:60 | text without `/` or `*` is kept unchanged, whatever follows it |
| RustOutline.DropCommentDelimitersLine | cpai/outline/rust.py:60 | a `//` is removed together with the whitespace after it |
| RustOutline.DropCommentDelimitersBlock | cpai/outline/rust.py:60 | of a `/* w */` block whose text `w` holds no `/` or `*`, exactly `w` remains |
| RustOutline.DropCommentDelimitersLineText | cpai/outline/rust.py:60 | of a `// w` comment whose text `w` holds no `/` or `*` and starts with no whitespace, exactly `w` remains |
| RustOutline.RunStartStops | cpai/outline/rust.py:41-50 | the run of blank and `///` lines above a line stops at the top of the file or at the first other line |
| RustOutline.DocRunSpec | cpai/outline/rust.py:39-53 | the collected doc comments are exactly the `///` lines of that run, markers removed, in source order |
| RustOutline.CollectDocComments | cpai/outline/rust.py:40-50 | the upward loop, which prepends each doc comment, collects the doc comments of that run |
| RustOutline.GetLeadingComment | cpai/outline/rust.py:34-63 | the leading comment is none for the first line; otherwise the doc comments joined with spaces, or else the stripped body of the trailing comment of the line above, or else none |
| RustOutline.ClassesImplNamed | cpai/outline/rust.py:135-137 | with an impl pattern that captures a non-empty identifier, every impl line names a type |
| RustOutline.AddOnce | cpai/outline/rust.py:90-97 | a name already seen changes nothing; an unseen one is marked seen and recorded under its 1-based line number with the line's leading comment |
| RustOutline.TypeDeclaration | cpai/outline/rust.py:84-132 | the struct, enum and trait branches do to the variables what one type line of the scan does |
| RustOutline.FnDeclaration | cpai/outline/rust.py:143-155 | the fn branch does to the variables what one fn line of the scan does |
| RustOutline.CodeLine | cpai/outline/rust.py:83-155 | the declaration branches, tried in order, do what one code line of the scan does |
| RustOutline.ScanLine | cpai/outline/rust.py:70-155 | the loop body, including the blank-line and block-comment skips, does what one line of the scan does |
| RustOutline.ExtractFunctions | cpai/outline/rust.py:26-160 | the loop over the lines computes the records of the line-by-line scan |
| RustOutline.LineEffect | cpai/outline/rust.py:69-155 | blank lines and lines in block comments change nothing. On a code line the first matching pattern decides, in the order struct, enum, trait, impl, fn. An impl sets the path and the impl type and records nothing. A public type name becomes the path and is recorded once. A fn is recorded once under its qualified name, as a method when an impl type is set. A private type name changes nothing |
| RustOutline.ImplRemembered | cpai/outline/rust.py:135-153 | the impl type is set after a line exactly when some earlier code line was an impl header; it is never cleared |
| RustOutline.FileEntries | cpai/outline/rust.py:69-155 | the records have distinct names and strictly increasing line numbers within the file. Each comes from a code line and carries that line's leading comment |
| RustOutline.FileKinds | cpai/outline/rust.py:84-155 | struct, enum and trait records have names not starting with `_`, and a function record is a method exactly when an impl header came before its line |
| RustOutline.BlankInputNoEntries | cpai/outline/rust.py:70-73 | a text of whitespace only has no outline |
| SolidityOutline.SupportsFile | cpai/outline/solidity.py:19-21 | a name is taken exactly when it ends in `.sol`, in any letter case |
| SolidityOutline.FunctionName | cpai/outline/solidity.py:64 | a function match without a name, or with an empty one, is named `fallback`; otherwise it keeps its name; the name is never empty |
| SolidityOutline.ContainerLine | cpai/outline/solidity.py:47-59 | the loop over the contract and interface patterns does what the container part of one line of the scan does |
| SolidityOutline.FunctionLine | cpai/outline/solidity.py:62-72 | the function branch does what the function part of one line of the scan does, and leaves the path alone |
| SolidityOutline.ExtractFunctions | cpai/outline/solidity.py:23-77 | the loop over the lines computes the records of the line-by-line scan |
| SolidityOutline.ContainerRecorded | cpai/outline/solidity.py:47-59 | a contract or interface line sets the path to its name and marks the name seen, whatever the name |
| SolidityOutline.FileEntries | cpai/outline/solidity.py:42-72 | the records have distinct names, line numbers within the file that never decrease, and at most two records per line. Each record is the container of its line, or an included function of that line qualified by the path at that point |
| SolidityOutline.ContractExample | cpai/outline/solidity.py:45-72 | a contract followed by a function gives `MyContract` and then `MyContract.myFunction` |
| SolidityOutline.SameLineExample | cpai/outline/solidity.py:35-72 | a nameless function on the contract's line is recorded as `A.fallback`, and a constructor is left out |
| PythonOutline.SupportsFile | cpai/outline/python.py:13-15 | a name is taken exactly when it ends in `.py`, in any letter case |
| PythonOutline.DocstringFirstLine | cpai/outline/python.py:24-36 | a comment exists exactly for a class or function whose docstring is non-empty. The docstring's first line is its prefix up to the first newline or the end. The comment is the slice of that line between its whitespace run at the start and its whitespace run at the end; it holds no newline and has no whitespace at either end |
| PythonOutline.Visitor.constructor | cpai/outline/python.py:19-22 | a fresh visitor starts with an empty path, no seen names and no records |
| PythonOutline.Visitor.AddFunction | cpai/outline/python.py:51-72 | `add_function` under the current path: an excluded name or an already seen full name changes nothing; otherwise the full name is marked seen and its record appended; the path is unchanged |
| PythonOutline.Visitor.Visit | cpai/outline/python.py:75-103 | a visit leaves the path as it found it, and updates the seen names and the records as the tree visit does |
| PythonOutline.Visitor.GenericVisit | cpai/outline/python.py:89-103 | visiting the children in order updates the state as the visits of the children in turn do |
| PythonOutline.ExtractFunctions | cpai/outline/python.py:17-112 | parsing and visiting with a fresh visitor gives the records of the tree visit, or none when the text does not parse |
| PythonOutline.FirstOccurrencesAppend | cpai/outline/python.py:60-63 | taking first occurrences over two lists in turn is taking them over the first list, then over the second with the first list's names already seen |
| PythonOutline.VisitTreeIsFirstOccurrences | cpai/outline/python.py:51-103 | the visit of a tree records exactly the first occurrence, in pre-order, of the full name of each includable class and function, and marks exactly those names seen |
| PythonOutline.VisitTreesIsFirstOccurrences | cpai/outline/python.py:89-103 | the same for the visit of a list of trees |
| PythonOutline.FirstOccurrencesNames | cpai/outline/python.py:60-63 | the first occurrences carry pairwise distinct names; a name is among them exactly when some candidate carries it and it was not seen before |
| PythonOutline.FileOutline | cpai/outline/python.py:105-112 | a text that does not parse has no outline. Otherwise the outline is the first occurrences of the includable declarations' full names in pre-order; the names are distinct, and a name is recorded exactly when some includable declaration has it |
| PythonOutline.ClassWithMethod | cpai/outline/python.py:75-98 | a top-level class with one method records the class as `C.C`, then the method as `C.m` |
| PythonOutline.ClassMethodExample | cpai/outline/python.py:75-98 | class `MyClass` with method `my_method` gives `MyClass.MyClass`, then `MyClass.my_method` |
| PythonOutline.PrivateClassExample | cpai/outline/python.py:43-93 | a private class is not recorded, but its methods are, qualified by it: `_Hidden.run` |
| JavaScriptOutline.SupportsFile | cpai/outline/javascript.py:94-97 | a name is taken exactly when its lower-cased form ends in `.js`, `.jsx`, `.ts` or `.tsx`, and the name does not end in `javascript_parser.js` (compared with its letter case) |
| JavaScriptOutline.SupportsFileExamples | cpai/outline/javascript.py:97 | the extension test ignores letter case: `app.TSX` and `Comp.Jsx` are taken, `main.py` is not |
| JavaScriptOutline.ParserScriptExamples | cpai/outline/javascript.py:97 | `lib/javascript_parser.js` is not taken, but `lib/Javascript_Parser.js` is, since the exclusion compares with letter case |
| JavaScriptOutline.NotScriptSuffix | cpai/outline/javascript.py:97 | a name whose lower-cased form ends neither in `x` nor in `js` or `ts` is not taken |
| JavaScriptOutline.ToRecord | cpai/outline/javascript.py:61-70 | a printed record becomes a declaration with its name. Missing keys take their defaults: line 0, no parameters, an empty comment, not exported |
| JavaScriptOutline.RecordsOneToOne | cpai/outline/javascript.py:59-70 | the conversion gives one declaration per printed record, in order |
| JavaScriptOutline.NamelessDiscardsAll | cpai/outline/javascript.py:59-77 | a single printed record without a name empties the whole result |
| JavaScriptOutline.ConvertRecords | cpai/outline/javascript.py:59-77 | the loop converts every record, or returns nothing when a record has no name |
| JavaScriptOutline.ExtractFunctions | cpai/outline/javascript.py:41-77 | the method gives nothing without the parser script or when its run fails; otherwise it gives the converted records |
| JavaScriptOutline.FileOutline | cpai/outline/javascript.py:41-77 | the outline is empty without the parser, when its run fails, or when some record has no name. Otherwise it has one record per printed record, in order, with the defaults filled in |
| JavaScriptOutline.LabelShape | cpai/outline/javascript.py:79-92 | a label is always the export marker, the name, and the parameters in parentheses; the default-export flag matters only on an exported record |
| JavaScriptOutline.ExportVisible | cpai/outline/javascript.py:87-90 | for a name without spaces, a label starts with `export ` exactly when the record is exported, and with `export default ` exactly when it is the default export |
| OutlineCli.FirstSupporting | cpai/outline/cli.py:16-19 | the first extractor that supports the file is taken; none is taken exactly when no extractor supports it |
| OutlineCli.GetExtractorForFile | cpai/outline/cli.py:9-19 | a file gets an extractor exactly when the JavaScript extractor takes it, and the extractor is then that one |
| OutlineCli.ExtractOutline | cpai/outline/cli.py:22-41 | a path that is not a file, or that no registered extractor takes, has an empty outline; otherwise the outline is what the extractor finds in the file's text |
| OutlineCli.UnregisteredExtractors | cpai/outline/cli.py:11-14 | `tool.py`, `lib.rs` and `Token.sol` are taken by their own extractors, yet get no extractor from the registry |
| CpaiMain.ReadConfig | cpai/main.py:18-41 | A missing file gives the defaults. A file that does not decode, or decodes to a non-object, raises. A loaded `outputFile` that is a bool or a str merges every loaded key over the defaults. Any other `outputFile` keeps the defaults, except that an integer (or bool) `chunkSize` overrides in either case |
| CpaiMain.SplitExtShape | cpai/main.py:52 | `splitext(...)[1]` is non-empty exactly when, after the last separator, some dot follows a character that is not a dot. It is then a suffix of the path that starts with its only dot and holds no separator |
| CpaiMain.SplitExtExamples | cpai/main.py:52 | `src/main.py` gives `.py`, `archive.tar.gz` gives `.gz`, and `.bashrc` and `conf.d/Makefile` give nothing |
| CpaiMain.GetFiles | cpai/main.py:43-55 | the loop over the walk, with the inner exclusion test, gives the selection |
| CpaiMain.SelectedIsFilter | cpai/main.py:46-53 | the selection lists, in walk order, the relative paths at exactly the walked positions whose path holds no exclude string and whose name has a configured extension |
| CpaiMain.SelectedMembers | cpai/main.py:46-53 | a path is selected exactly when some walked file with that path is kept |
| CpaiMain.BasenameShape | cpai/main.py:65 | `basename` is a suffix of the path without a separator, preceded by a separator unless it is the whole path, which it is when the path has no separator |
| CpaiMain.DirnameShape | cpai/main.py:62 | `dirname` is the part of the path before the base name: as it is when made of slashes only, and otherwise with its trailing slashes removed, leaving a non-empty prefix that does not end in a slash. It is empty exactly when the path has no separator |
| CpaiMain.ExtLabelOfExtension | cpai/main.py:71 | a code block's label is the file's extension without its dot, or empty when there is no extension |
| CpaiMain.CollectDirectories | cpai/main.py:60-62 | the loop collects the set of the files' directories |
| CpaiMain.HeaderDirectories | cpai/main.py:60-63 | the header lists each directory of some input file exactly once, in sorted order |
| CpaiMain.TopHeaderLine | cpai/main.py:64-65 | a directory without a separator is shown unindented, as its name (or `.` for the current directory) followed by `/` |
| CpaiMain.NestedHeaderLine | cpai/main.py:64-65 | a directory one level down is indented by two spaces and shown by its last component |
| CpaiMain.RenderHeader | cpai/main.py:59-65 | the header is the title followed by one line per directory, in the given order |
| CpaiMain.SectionsSnoc | cpai/main.py:68-72 | one more readable file adds its section at the end |
| CpaiMain.RenderSections | cpai/main.py:68-72 | the sections are produced exactly when every file can be read, one per file in input order; otherwise the error names an input file that cannot be read |
| CpaiMain.FormatContent | cpai/main.py:57-73 | the rendering exists exactly when every file can be read. It is the title, the sorted directory lines, the fence, then one section per file in input order. Otherwise the error names an unreadable input file |

## Left out

- The extractor interface (`cpai/outline/base.py:17-42`) is a closed datatype of the four
  extractors with a dispatch on it, not an abstract base class.
- The declaration record follows the fields the extractors pass: node type, parameters, comment
  and export flags. The `FunctionInfo` of `cpai/outline/base.py:8-14` declares a required
  `signature` and a field `type` instead; called as the extractors call it, it raises
  `TypeError`, the handlers catch that, and every outline comes out empty. The model gives the
  records the extractors evidently mean to build. `signature` is not modelled.
- The declaration regexes of the Rust and Solidity extractors are abstract parameters. So
  `RustOutline.FileKinds` assumes, as a precondition, that the impl pattern captures a
  non-empty name (the source's `\w+` does).
- `current_type`, `current_contract` and `current_class` are written but never read; they are
  not modelled.
- The exception handlers around the scanners catch only failures that the model rules out by
  construction (the record constructor and the regex engine). A Python parse failure, a failed
  JavaScript parser run and a nameless JavaScript record are modelled.
- `ast.parse` is a parameter giving a tree of class, function, async function and other
  nodes, or nothing for a syntax error. `ast.get_docstring`'s cleaning of indentation is the
  parser's business: the node carries the cleaned docstring.
- The JavaScript parser is a parameter: whether its script exists, and what its run prints
  (the decoded records, or nothing when the return code is not zero or the output does not
  decode). Compiling the TypeScript parser in the constructor is not modelled.
- `str.lower()` folds ASCII letters only.
- JavaScriptOutline.ParsedFunction: a printed record's key is either present with a value of
  the right type or missing (`cpai/outline/javascript.py:60-69`). A key present with `null` or
  with a value of another type is not modelled. In the source `"leadingComment": null` gives a
  comment `None` rather than `""`, and `"name": null` gives a record named `None` instead of
  raising `KeyError`.
- CpaiMain.GetFiles: `exclude` and `fileExtensions` are taken as lists of strings, while the
  configuration holds any JSON value (`cpai/main.py:50-52`). The source would iterate over a
  string there character by character, and test extensions against it as a substring; that is
  not modelled.
- A JSON configuration holds null, bools, integers, strings, arrays and objects; other numbers
  are not modelled. Opening and decoding the file is a parameter.
- `os.walk` is given as the list of files it yields, in order, each with its path relative to
  the working directory. Joining and relativising paths are left to it.
- `format_content` takes the files' texts as a map from path to text; a path missing from the
  map stands for a file that cannot be opened. Reading the files is not modelled.
- The command line, `cpai()`, logging, the TypeScript compilation, `chunk_content`,
  `write_output` and the clipboard are not modelled: they are I/O around the modelled core.
- The contents of the outline tree printed with `format_function_for_tree` are not modelled
  beyond the label of one record; building the tree is not part of the modelled files.
