/** The assembly steps of the `cpai` command: reading the configuration over its defaults,
    choosing the walked files to include, and rendering the files as one markdown text. */
module CpaiMain {
  import opened Wrappers
  import opened Text
  import opened StringOrder

  // ---------------------------------------------------------------------------------------
  // Configuration

  /** A decoded JSON value (numbers other than integers are not modelled). */
  datatype Json = JNull | JBool(b: bool) | JInt(i: int) | JString(s: string) | JArray(items: seq<Json>) | JObject(fields: map<string, Json>)

  /** A configuration dictionary. */
  type Config = map<string, Json>

  const DefaultChunkSize: int := 90000

  /** The configuration used when no file overrides it. */
  const Defaults: Config := map[
    "include" := JArray([JString(".")]),
    "exclude" := JArray([JString("node_modules"), JString("dist")]),
    "outputFile" := JBool(false),
    "usePastebin" := JBool(true),
    "fileExtensions" := JArray([JString(".ts"), JString(".js"), JString(".py")]),
    "chunkSize" := JInt(DefaultChunkSize)]

  /** What opening and decoding `cpai.config.json` gives: no file, text that is not JSON, or a
      decoded value. */
  datatype ConfigFile = Missing | Undecodable | Decoded(value: Json)

  /** The loaded configuration is merged whole only when its `outputFile` is a bool or a str. */
  predicate Accepted(loaded: Config) {
    "outputFile" in loaded && (loaded["outputFile"].JBool? || loaded["outputFile"].JString?)
  }

  /** `isinstance(v, int)`, which a bool also passes. */
  predicate IsPythonInt(v: Json) {
    v.JInt? || v.JBool?
  }

  /** `read_config`. A missing file gives the defaults. A file that does not decode, or decodes
      to something other than an object, raises (the error is the reason). Otherwise the loaded
      keys override the defaults when the loaded `outputFile` is a bool or a str, and are all
      dropped when it is not, except that an integer `chunkSize` overrides in either case. */
  method ReadConfig(file: ConfigFile) returns (r: Result<Config, string>)
    ensures file.Missing? ==> r == Ok(Defaults)
    ensures file.Undecodable? || (file.Decoded? && !file.value.JObject?) <==> r.Err?
    ensures file.Decoded? && file.value.JObject? ==>
              var loaded, config := file.value.fields, r.value;
              && (Accepted(loaded) ==>
                    && (forall k :: k in config <==> k in Defaults || k in loaded)
                    && (forall k :: k in loaded ==> config[k] == loaded[k]))
              && (!Accepted(loaded) ==>
                    && (forall k :: k in config <==> k in Defaults)
                    && (forall k :: k in Defaults && k != "chunkSize" ==> config[k] == Defaults[k]))
              && (forall k :: k in Defaults && k !in loaded ==> config[k] == Defaults[k])
              && ("chunkSize" in loaded && IsPythonInt(loaded["chunkSize"]) ==> config["chunkSize"] == loaded["chunkSize"])
              && (!Accepted(loaded) && !("chunkSize" in loaded && IsPythonInt(loaded["chunkSize"])) ==> config == Defaults)
  {
    var config := Defaults;
    match file {
      case Missing =>
        return Ok(config);
      case Undecodable =>
        return Err("the configuration file is not valid JSON");
      case Decoded(v) =>
        if !v.JObject? {
          return Err("the configuration is not a JSON object");
        }
        var loaded := v.fields;
        if Accepted(loaded) {
          config := config + loaded;
        }
        if "chunkSize" in loaded && IsPythonInt(loaded["chunkSize"]) {
          config := config["chunkSize" := loaded["chunkSize"]];
        }
        return Ok(config);
    }
  }

  // ---------------------------------------------------------------------------------------
  // Paths

  /** The index of the last `c` in `s`, or -1. */
  function LastIndex(s: string, c: char): (i: int)
    ensures -1 <= i < |s|
    ensures i >= 0 ==> s[i] == c
    ensures forall k :: i < k < |s| ==> s[k] != c
  {
    if s == [] then -1
    else if s[|s| - 1] == c then |s| - 1
    else LastIndex(s[..|s| - 1], c)
  }

  /** Some character of `s[lo..hi]` is not a dot. */
  predicate HasNonDot(s: string, lo: int, hi: int)
    requires 0 <= lo <= hi <= |s|
  {
    exists k :: lo <= k < hi && s[k] != '.'
  }

  /** `os.path.splitext(p)[1]`: from the last dot of the last path component, provided that
      dot is not part of the component's leading dots; otherwise empty. */
  function SplitExt(p: string): string {
    var sep := LastIndex(p, '/');
    var dot := LastIndex(p, '.');
    if dot > sep && HasNonDot(p, sep + 1, dot) then p[dot..] else ""
  }

  /** After the last separator of `p`, some dot comes after a character that is not a dot:
      the base name has a dot that is not one of its leading dots. */
  predicate DotAfterName(p: string) {
    exists i, j :: LastIndex(p, '/') < j < i < |p| && p[i] == '.' && p[j] != '.'
  }

  /** An extension is empty or a suffix of the path that starts with its only dot and has no
      separator; it is non-empty exactly when the base name has a dot that is not one of its
      leading dots. */
  lemma {:induction false} SplitExtShape(p: string)
    ensures var e := SplitExt(p);
      e == "" || (e[0] == '.' && EndsWith(p, e) && '.' !in e[1..] && '/' !in e)
    ensures SplitExt(p) != "" <==> DotAfterName(p)
  {
    if SplitExt(p) != "" {
      ExtensionForm(p);
      var sep := LastIndex(p, '/');
      var dot := LastIndex(p, '.');
      var k :| sep + 1 <= k < dot && p[k] != '.';
      assert LastIndex(p, '/') < k < dot < |p| && p[dot] == '.' && p[k] != '.';
    }
    if DotAfterName(p) {
      var i, j :| LastIndex(p, '/') < j < i < |p| && p[i] == '.' && p[j] != '.';
      DotAfterSeparator(p, i, j);
      assert |p[LastIndex(p, '.')..]| > 0;
    }
  }

  /** A non-empty extension is a suffix starting with its only dot, without a separator. */
  lemma {:induction false} ExtensionForm(p: string)
    requires SplitExt(p) != ""
    ensures var e := SplitExt(p); e[0] == '.' && EndsWith(p, e) && '.' !in e[1..] && '/' !in e
  {
    var e := SplitExt(p);
    var dot := LastIndex(p, '.');
    assert e == p[dot..];
    forall k | 0 <= k < |e|
      ensures e[k] != '/' && (k > 0 ==> e[k] != '.')
    {
      assert e[k] == p[dot + k];
    }
  }

  /** A dot after a character that is not a dot, both after the last separator, passes both
      tests of the extension: the last dot follows the last separator and such a character. */
  lemma {:induction false} DotAfterSeparator(p: string, di: int, dj: int)
    requires LastIndex(p, '/') < dj < di < |p| && p[di] == '.' && p[dj] != '.'
    ensures LastIndex(p, '.') > LastIndex(p, '/')
    ensures HasNonDot(p, LastIndex(p, '/') + 1, LastIndex(p, '.'))
  {
    var dot := LastIndex(p, '.');
    assert di <= dot;
  }

  /** The last `c` is at `i` when `i` holds one and nothing after it does. */
  lemma LastIndexAt(s: string, c: char, i: int)
    requires -1 <= i < |s|
    requires i >= 0 ==> s[i] == c
    requires forall k :: i < k < |s| ==> s[k] != c
    ensures LastIndex(s, c) == i
  {
    var j := LastIndex(s, c);
    if j < i {
    } else if j > i {
    }
  }

  lemma SplitExtExamples()
    ensures SplitExt("src/main.py") == ".py"
    ensures SplitExt("archive.tar.gz") == ".gz"
    ensures SplitExt(".bashrc") == ""
    ensures SplitExt("conf.d/Makefile") == ""
  {
    LastIndexAt("src/main.py", '/', 3);
    LastIndexAt("src/main.py", '.', 8);
    assert "src/main.py"[4] != '.';
    LastIndexAt("archive.tar.gz", '/', -1);
    LastIndexAt("archive.tar.gz", '.', 11);
    assert "archive.tar.gz"[0] != '.';
    LastIndexAt(".bashrc", '/', -1);
    LastIndexAt(".bashrc", '.', 0);
    LastIndexAt("conf.d/Makefile", '/', 6);
    LastIndexAt("conf.d/Makefile", '.', 4);
  }

  predicate AllSlashes(s: string) {
    forall k :: 0 <= k < |s| ==> s[k] == '/'
  }

  /** `s.rstrip('/')`. */
  function TrimSlashes(s: string): (r: string)
    ensures StartsWith(s, r)
    ensures r == [] || r[|r| - 1] != '/'
  {
    if s != [] && s[|s| - 1] == '/' then TrimSlashes(s[..|s| - 1]) else s
  }

  /** `os.path.dirname`: everything before the last separator, without trailing separators
      unless it consists of separators only. */
  function Dirname(p: string): string {
    var head := p[..LastIndex(p, '/') + 1];
    if AllSlashes(head) then head else TrimSlashes(head)
  }

  /** `os.path.basename`: everything after the last separator. */
  function Basename(p: string): string {
    p[LastIndex(p, '/') + 1..]
  }

  /** A base name is the end of the path and holds no separator; what precedes it is a
      separator, and it is the whole path when the path has none. */
  lemma BasenameShape(p: string)
    ensures '/' !in Basename(p) && EndsWith(p, Basename(p))
    ensures |Basename(p)| < |p| ==> p[|p| - |Basename(p)| - 1] == '/'
    ensures '/' !in p ==> Basename(p) == p
  {
    var i := LastIndex(p, '/') + 1;
    assert forall k :: 0 <= k < |p| - i ==> p[i..][k] == p[i + k];
    if '/' !in p {
      assert i == 0;
    }
  }

  /** A file's directory comes from the part of its path before the base name: that part
      itself when it is made of separators only, and otherwise that part with its trailing
      separators removed, which leaves a non-empty prefix not ending in a separator. The
      directory is empty exactly when the path has no separator. */
  lemma DirnameShape(p: string)
    ensures var head := p[..|p| - |Basename(p)|];
      AllSlashes(head) ==> Dirname(p) == head
    ensures var head := p[..|p| - |Basename(p)|]; var d := Dirname(p);
      !AllSlashes(head) ==>
        d != [] && StartsWith(head, d) && AllSlashes(head[|d|..]) && d[|d| - 1] != '/'
    ensures StartsWith(p, Dirname(p))
    ensures Dirname(p) == "" <==> '/' !in p
  {
    var head := p[..LastIndex(p, '/') + 1];
    assert head == p[..|p| - |Basename(p)|];
    BasenameShape(p);
    if !AllSlashes(head) {
      TrimSlashesOfNonSlash(head);
      TrimSlashesRest(head);
    }
    if '/' in p {
      assert head != [];
    }
  }

  /** Trimming separators from a string that is not all separators leaves something. */
  lemma {:induction false} TrimSlashesOfNonSlash(s: string)
    requires !AllSlashes(s)
    ensures TrimSlashes(s) != []
    decreases |s|
  {
    if s[|s| - 1] == '/' {
      var t := s[..|s| - 1];
      assert !AllSlashes(t) by {
        var k :| 0 <= k < |s| && s[k] != '/';
        assert t[k] == s[k];
      }
      TrimSlashesOfNonSlash(t);
    }
  }

  /** What trimming removes is separators only. */
  lemma {:induction false} TrimSlashesRest(s: string)
    ensures AllSlashes(s[|TrimSlashes(s)|..])
    decreases |s|
  {
    if s != [] && s[|s| - 1] == '/' {
      var t := s[..|s| - 1];
      TrimSlashesRest(t);
      var n := |TrimSlashes(s)|;
      assert TrimSlashes(s) == TrimSlashes(t);
      forall k | n <= k < |s|
        ensures s[k] == '/'
      {
        if k < |t| {
          assert t[n..][k - n] == t[k];
        }
      }
      assert forall k :: 0 <= k < |s| - n ==> s[n..][k] == s[n + k];
    }
  }

  // ---------------------------------------------------------------------------------------
  // Selecting the walked files

  /** One file produced by walking a directory: its path relative to the working directory,
      and its name. */
  datatype WalkedFile = WalkedFile(relPath: string, filename: string)

  /** Some exclude string occurs in the relative path. */
  predicate Excluded(relPath: string, exclude: seq<string>) {
    exists e :: e in exclude && Contains(relPath, e)
  }

  lemma ExcludedSnoc(relPath: string, exclude: seq<string>, x: string)
    ensures Excluded(relPath, exclude + [x]) <==> Excluded(relPath, exclude) || Contains(relPath, x)
  {
    assert x in exclude + [x];
    assert forall e :: e in exclude + [x] <==> e in exclude || e == x;
  }

  /** The file is kept: no exclude string occurs in its relative path, and its name's extension
      is one of the configured ones. */
  predicate Kept(w: WalkedFile, exclude: seq<string>, extensions: seq<string>) {
    !Excluded(w.relPath, exclude) && SplitExt(w.filename) in extensions
  }

  /** The relative paths of the kept files, in walk order. */
  function Selected(walk: seq<WalkedFile>, exclude: seq<string>, extensions: seq<string>): seq<string> {
    if walk == [] then []
    else
      var last := walk[|walk| - 1];
      Selected(walk[..|walk| - 1], exclude, extensions) + (if Kept(last, exclude, extensions) then [last.relPath] else [])
  }

  /** The walked positions whose files are kept, in increasing order. */
  function KeptPositions(walk: seq<WalkedFile>, exclude: seq<string>, extensions: seq<string>): seq<nat> {
    if walk == [] then []
    else
      var n := |walk| - 1;
      KeptPositions(walk[..n], exclude, extensions) + (if Kept(walk[n], exclude, extensions) then [n] else [])
  }

  /** `get_files`, over the walk given as the list of files it produces in order. */
  method GetFiles(walk: seq<WalkedFile>, exclude: seq<string>, extensions: seq<string>) returns (files: seq<string>)
    ensures files == Selected(walk, exclude, extensions)
  {
    files := [];
    for i := 0 to |walk|
      invariant files == Selected(walk[..i], exclude, extensions)
    {
      assert walk[..i + 1][..i] == walk[..i];
      var w := walk[i];
      var excluded := false;
      var j := 0;
      while j < |exclude| && !excluded
        invariant 0 <= j <= |exclude|
        invariant excluded <==> Excluded(w.relPath, exclude[..j])
        invariant excluded ==> Excluded(w.relPath, exclude)
      {
        assert exclude[..j + 1] == exclude[..j] + [exclude[j]];
        ExcludedSnoc(w.relPath, exclude[..j], exclude[j]);
        assert exclude[j] in exclude;
        excluded := Contains(w.relPath, exclude[j]);
        j := j + 1;
      }
      if !excluded {
        assert exclude[..j] == exclude;
      }
      if excluded {
        continue;
      }
      if SplitExt(w.filename) in extensions {
        files := files + [w.relPath];
      }
    }
    assert walk[..|walk|] == walk;
  }

  /** The selection is the walk filtered by `Kept`: it lists, in order, the relative paths at
      exactly the positions whose files are kept. */
  lemma {:induction false} SelectedIsFilter(walk: seq<WalkedFile>, exclude: seq<string>, extensions: seq<string>)
    ensures var ps, fs := KeptPositions(walk, exclude, extensions), Selected(walk, exclude, extensions);
      && |ps| == |fs|
      && (forall t :: 0 <= t < |ps| ==> ps[t] < |walk| && fs[t] == walk[ps[t]].relPath)
      && (forall a, b :: 0 <= a < b < |ps| ==> ps[a] < ps[b])
      && (forall k :: 0 <= k < |walk| ==> (k in ps <==> Kept(walk[k], exclude, extensions)))
  {
    if walk != [] {
      var n := |walk| - 1;
      var init := walk[..n];
      SelectedIsFilter(init, exclude, extensions);
      var ps0 := KeptPositions(init, exclude, extensions);
      var ps := KeptPositions(walk, exclude, extensions);
      forall k | 0 <= k < n
        ensures init[k] == walk[k]
      {
      }
      forall k | 0 <= k < |walk|
        ensures k in ps <==> Kept(walk[k], exclude, extensions)
      {
        if k < n {
          assert k in ps <==> k in ps0;
        }
      }
    }
  }

  /** A path is selected exactly when some walked file with that path is kept. */
  lemma SelectedMembers(walk: seq<WalkedFile>, exclude: seq<string>, extensions: seq<string>, x: string)
    ensures x in Selected(walk, exclude, extensions)
            <==> exists k :: 0 <= k < |walk| && walk[k].relPath == x && Kept(walk[k], exclude, extensions)
  {
    SelectedIsFilter(walk, exclude, extensions);
    var ps, fs := KeptPositions(walk, exclude, extensions), Selected(walk, exclude, extensions);
    if x in fs {
      var t :| 0 <= t < |fs| && fs[t] == x;
      assert ps[t] in ps;
    }
    if exists k :: 0 <= k < |walk| && walk[k].relPath == x && Kept(walk[k], exclude, extensions) {
      var k :| 0 <= k < |walk| && walk[k].relPath == x && Kept(walk[k], exclude, extensions);
      var t :| 0 <= t < |ps| && ps[t] == k;
      assert fs[t] == x;
    }
  }

  // ---------------------------------------------------------------------------------------
  // Rendering

  const Title: string := "## Directory Structure\n```\n"
  const Fence: string := "```\n\n"

  /** `s * n` for a string. */
  function Repeat(s: string, n: nat): string {
    if n == 0 then [] else s + Repeat(s, n - 1)
  }

  /** The depth of a directory: one less than the number of its `/`-separated parts. */
  function Depth(dir: string): nat {
    |Split(dir, '/')| - 1
  }

  /** The line of the directory header for one directory. */
  function HeaderLine(dir: string): string {
    Join([Repeat("  ", Depth(dir)), if Basename(dir) == "" then "." else Basename(dir), "/\n"], "")
  }

  /** The header lines of a list of directories, in order. */
  function HeaderLines(dirs: seq<string>): string {
    if dirs == [] then [] else HeaderLines(dirs[..|dirs| - 1]) + HeaderLine(dirs[|dirs| - 1])
  }

  /** The distinct directories of the inputs. */
  function Directories(files: seq<string>): set<string> {
    set f | f in files :: Dirname(f)
  }

  /** The section of one file: its path, then its text in a block labelled with its
      extension without the dot. */
  function Section(file: string, content: string): string {
    Join(["\n## ", file, "\n```", ExtLabel(file), "\n", content, "\n```\n"], "")
  }

  /** `os.path.splitext(p)[1][1:]`: the extension without its dot. */
  function ExtLabel(p: string): string {
    var sep := LastIndex(p, '/');
    var dot := LastIndex(p, '.');
    if dot > sep && HasNonDot(p, sep + 1, dot) then p[dot + 1..] else ""
  }

  /** The label is the extension with its dot removed. */
  lemma ExtLabelOfExtension(p: string)
    ensures SplitExt(p) == "" ==> ExtLabel(p) == ""
    ensures SplitExt(p) != "" ==> ExtLabel(p) == SplitExt(p)[1..]
  {
  }

  /** Every input file has a text. */
  predicate AllReadable(files: seq<string>, contents: map<string, string>) {
    forall k :: 0 <= k < |files| ==> files[k] in contents
  }

  /** The sections of the inputs, in input order. */
  function Sections(files: seq<string>, contents: map<string, string>): string
    requires AllReadable(files, contents)
  {
    if files == [] then []
    else
      var f := files[|files| - 1];
      Sections(files[..|files| - 1], contents) + Section(f, contents[f])
  }

  /** Extending the inputs by one readable file extends the sections by that file's. */
  lemma SectionsSnoc(files: seq<string>, i: int, contents: map<string, string>)
    requires 0 <= i < |files| && AllReadable(files[..i], contents) && files[i] in contents
    ensures AllReadable(files[..i + 1], contents)
    ensures Sections(files[..i + 1], contents) == Sections(files[..i], contents) + Section(files[i], contents[files[i]])
  {
    var p := files[..i + 1];
    assert p[..i] == files[..i] && p[i] == files[i];
    assert forall k :: 0 <= k < i + 1 ==> p[k] in contents by {
      forall k | 0 <= k < i + 1
        ensures p[k] in contents
      {
        if k < i {
          assert p[k] == files[..i][k];
        }
      }
    }
  }

  /** The rendering of the inputs: the title, one header line per distinct directory in
      sorted order, the closing fence, and one section per file in input order. */
  ghost function Rendered(files: seq<string>, contents: map<string, string>): string
    requires AllReadable(files, contents)
  {
    Title + HeaderLines(SortedSet(Directories(files))) + Fence + Sections(files, contents)
  }

  /** The first loop of `format_content`: the set of the inputs' directories. */
  method CollectDirectories(files: seq<string>) returns (dirStructure: set<string>)
    ensures dirStructure == Directories(files)
  {
    dirStructure := {};
    for i := 0 to |files|
      invariant dirStructure == Directories(files[..i])
    {
      assert files[..i + 1] == files[..i] + [files[i]];
      dirStructure := dirStructure + {Dirname(files[i])};
    }
    assert files[..|files|] == files;
  }

  /** The title and the second loop of `format_content`: one header line per directory, in
      the order given. */
  method RenderHeader(dirs: seq<string>) returns (output: string)
    ensures output == Title + HeaderLines(dirs)
  {
    output := Title;
    for i := 0 to |dirs|
      invariant output == Title + HeaderLines(dirs[..i])
    {
      var line := HeaderLine(dirs[i]);
      HeaderLinesSnoc(dirs, i, line);
      output := output + line;
    }
    assert dirs[..|dirs|] == dirs;
  }

  /** One more directory adds its line at the end of the header. */
  lemma HeaderLinesSnoc(dirs: seq<string>, i: int, line: string)
    requires 0 <= i < |dirs| && line == HeaderLine(dirs[i])
    ensures Title + HeaderLines(dirs[..i]) + line == Title + HeaderLines(dirs[..i + 1])
  {
    assert dirs[..i + 1][..i] == dirs[..i];
    assert HeaderLines(dirs[..i + 1]) == HeaderLines(dirs[..i]) + line;
  }

  /** The third loop of `format_content`: one section per input, in input order, until a
      file cannot be read. */
  method RenderSections(files: seq<string>, contents: map<string, string>) returns (r: Result<string, string>)
    ensures r.Ok? <==> AllReadable(files, contents)
    ensures r.Ok? ==> r.value == Sections(files, contents)
    ensures r.Err? ==> exists k :: 0 <= k < |files| && files[k] == r.error && r.error !in contents
                                  && AllReadable(files[..k], contents)
  {
    var output := "";
    for i := 0 to |files|
      invariant AllReadable(files[..i], contents)
      invariant output == Sections(files[..i], contents)
    {
      if files[i] !in contents {
        return Err(files[i]);
      }
      SectionsSnoc(files, i, contents);
      output := output + Section(files[i], contents[files[i]]);
    }
    assert files[..|files|] == files;
    return Ok(output);
  }

  /** `format_content`, with the texts of the files given as a map; a file without a text
      raises when it is opened, and the error names the first such file. */
  method FormatContent(files: seq<string>, contents: map<string, string>) returns (r: Result<string, string>)
    ensures r.Ok? <==> AllReadable(files, contents)
    ensures r.Ok? ==> r.value == Rendered(files, contents)
    ensures r.Err? ==> exists k :: 0 <= k < |files| && files[k] == r.error && r.error !in contents
                                  && AllReadable(files[..k], contents)
  {
    var dirStructure := CollectDirectories(files);
    var dirs := SortStrings(dirStructure);
    var header := RenderHeader(dirs);
    var sections := RenderSections(files, contents);
    match sections {
      case Err(f) => return Err(f);
      case Ok(body) => return Ok(header + Fence + body);
    }
  }

  /** The header names each distinct directory of the inputs exactly once, in increasing
      order. */
  lemma HeaderDirectories(files: seq<string>)
    ensures var ds := SortedSet(Directories(files));
      && StrictlySorted(ds)
      && |ds| == |Directories(files)|
      && forall d :: d in ds <==> exists k :: 0 <= k < |files| && Dirname(files[k]) == d
  {
    SortedSetSpec(Directories(files));
    forall d
      ensures d in Directories(files) <==> exists k :: 0 <= k < |files| && Dirname(files[k]) == d
    {
      if d in Directories(files) {
        var f :| f in files && Dirname(f) == d;
        var k :| 0 <= k < |files| && files[k] == f;
      }
    }
  }

  /** Three pieces joined with nothing between them. */
  lemma JoinThree(x: string, y: string, z: string)
    ensures Join([x, y, z], "") == x + y + z
  {
    assert [x, y, z][1..] == [y, z];
    assert [y, z][1..] == [z];
    assert Join([z], "") == z;
    assert Join([y, z], "") == y + "" + z;
    assert Join([x, y, z], "") == x + "" + (y + "" + z);
  }

  /** A top-level directory renders unindented as its name, and the empty directory as `./`. */
  lemma TopHeaderLine(dir: string)
    requires '/' !in dir
    ensures HeaderLine(dir) == (if dir == "" then "." else dir) + "/\n"
  {
    SplitNoSeparator(dir, '/');
    LastIndexAt(dir, '/', -1);
    assert Basename(dir) == dir;
    JoinThree(Repeat("  ", 0), if dir == "" then "." else dir, "/\n");
  }

  /** A directory one level down renders as its last part indented by two spaces. */
  lemma NestedHeaderLine(parent: string, name: string)
    requires '/' !in parent && '/' !in name && name != ""
    ensures HeaderLine(parent + "/" + name) == "  " + name + "/\n"
  {
    var dir := parent + "/" + name;
    SplitAtSeparator(parent, '/', name);
    SplitNoSeparator(name, '/');
    assert Depth(dir) == 1;
    LastIndexAt(dir, '/', |parent|);
    assert dir[|parent| + 1..] == name;
    assert Basename(dir) == name;
    assert Repeat("  ", 1) == "  ";
    JoinThree("  ", name, "/\n");
  }
}
