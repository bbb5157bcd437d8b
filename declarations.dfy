/** The declaration record (`FunctionInfo`) with the fields the extractors pass to it. */
module Declarations {
  import opened Wrappers
  import opened Text

  /** The `node_type` values the extractors use; records built without one get `Function`. */
  datatype NodeType = Function | Method | Struct | Enum | Trait

  /** One extracted declaration. `signature`, which the record declares but no extractor
      supplies, is not part of it. */
  datatype FunctionInfo = FunctionInfo(
    name: string,
    lineNumber: int,
    nodeType: NodeType,
    parameters: string,
    leadingComment: Option<string>,
    isExport: bool,
    isDefaultExport: bool)

  /** A record built from a name, a line, a kind and a comment, every other field at its
      default (no parameters, not exported). */
  function Record(name: string, line: int, kind: NodeType, comment: Option<string>): (f: FunctionInfo)
    ensures f.name == name && f.lineNumber == line && f.nodeType == kind && f.leadingComment == comment
    ensures f.parameters == "" && !f.isExport && !f.isDefaultExport
  {
    FunctionInfo(name, line, kind, "", comment, false, false)
  }

  /** The names of a list of records, in order. */
  function Names(fs: seq<FunctionInfo>): (ns: seq<string>)
    ensures |ns| == |fs|
    ensures forall k :: 0 <= k < |fs| ==> ns[k] == fs[k].name
  {
    if fs == [] then [] else [fs[0].name] + Names(fs[1..])
  }

  /** No two records carry the same name. */
  ghost predicate DistinctNames(fs: seq<FunctionInfo>) {
    forall a, b :: 0 <= a < b < |fs| ==> fs[a].name != fs[b].name
  }

  /** The bookkeeping every extractor keeps: its seen-names set is exactly the set of names
      it has recorded, and those names are pairwise distinct. */
  ghost predicate SeenMatches(seen: set<string>, fs: seq<FunctionInfo>) {
    DistinctNames(fs) && forall n :: n in seen <==> n in Names(fs)
  }

  /** Appending a record whose name is unseen keeps the bookkeeping. */
  lemma AppendUnseen(seen: set<string>, fs: seq<FunctionInfo>, f: FunctionInfo)
    requires SeenMatches(seen, fs)
    requires f.name !in seen
    ensures SeenMatches(seen + {f.name}, fs + [f])
  {
    var fs' := fs + [f];
    assert Names(fs') == Names(fs) + [f.name];
    forall a, b | 0 <= a < b < |fs'|
      ensures fs'[a].name != fs'[b].name
    {
      if b == |fs| {
        assert fs'[a].name == Names(fs)[a];
      }
    }
  }

  /** Line numbers lie in `[1, n]`. */
  ghost predicate LinesWithin(fs: seq<FunctionInfo>, n: int) {
    forall k :: 0 <= k < |fs| ==> 1 <= fs[k].lineNumber <= n
  }

  /** Line numbers strictly increase along the list. */
  ghost predicate LinesIncreasing(fs: seq<FunctionInfo>) {
    forall a, b :: 0 <= a < b < |fs| ==> fs[a].lineNumber < fs[b].lineNumber
  }

  /** `filter(None, parts)`: the non-empty strings of `parts`, in order. */
  function NonEmpty(parts: seq<string>): (r: seq<string>)
    ensures forall k :: 0 <= k < |r| ==> r[k] != ""
    ensures forall x :: x in r <==> x in parts && x != ""
  {
    if parts == [] then []
    else (if parts[0] != "" then [parts[0]] else []) + NonEmpty(parts[1..])
  }

  /** `get_full_path` (of both the Solidity and the Python extractor): the non-empty segments
      of the path and the name, joined with dots. */
  function FullPath(path: seq<string>, name: string): string {
    Join(NonEmpty(path + [name]), ".")
  }

  lemma {:induction false} NonEmptyKeeps(parts: seq<string>)
    requires forall k :: 0 <= k < |parts| ==> parts[k] != ""
    ensures NonEmpty(parts) == parts
  {
    if parts != [] {
      NonEmptyKeeps(parts[1..]);
    }
  }

  /** Inside a named scope the name is qualified by it; outside any scope it is bare. */
  lemma FullPathQualifies(c: string, name: string)
    requires c != "" && name != ""
    ensures FullPath([c], name) == c + "." + name
    ensures FullPath([], name) == name
  {
    NonEmptyKeeps([c, name]);
    NonEmptyKeeps([name]);
    assert [c] + [name] == [c, name];
    assert [] + [name] == [name];
    assert Join([c, name], ".") == c + "." + Join([c, name][1..], ".");
    assert [c, name][1..] == [name];
  }

  /** Filtering distributes over concatenation: the kept segments stay in order, each as
      often as it occurs. */
  lemma {:induction false} NonEmptyAppend(a: seq<string>, b: seq<string>)
    ensures NonEmpty(a + b) == NonEmpty(a) + NonEmpty(b)
    decreases |a|
  {
    if a == [] {
      assert a + b == b;
    } else {
      assert (a + b)[1..] == a[1..] + b;
      NonEmptyAppend(a[1..], b);
    }
  }

  /** With every segment non-empty, the full path is the path and the name joined with dots,
      however deep the nesting. */
  lemma FullPathJoins(path: seq<string>, name: string)
    requires forall k :: 0 <= k < |path| ==> path[k] != ""
    requires name != ""
    ensures FullPath(path, name) == Join(path + [name], ".")
  {
    NonEmptyKeeps(path + [name]);
  }

  /** Entering a named scope `c` qualifies the name by the full path of `c` itself. */
  lemma FullPathExtends(path: seq<string>, c: string, name: string)
    requires c != "" && name != ""
    ensures FullPath(path + [c], name) == FullPath(path, c) + "." + name
  {
    NonEmptyAppend(path + [c], [name]);
    NonEmptyAppend(path, [c]);
    assert NonEmpty([name]) == [name] && NonEmpty([c]) == [c] by {
      NonEmptyKeeps([name]);
      NonEmptyKeeps([c]);
    }
    JoinSnoc(NonEmpty(path + [c]), ".", name);
  }

  /** A segment without a name adds nothing to the full path. */
  lemma FullPathSkipsUnnamed(path: seq<string>, name: string)
    ensures FullPath(path + [""], name) == FullPath(path, name)
  {
    NonEmptyAppend(path + [""], [name]);
    NonEmptyAppend(path, [""]);
    NonEmptyAppend(path, [name]);
    assert NonEmpty([""]) == [];
    assert NonEmpty(path) + [] == NonEmpty(path);
  }

  /** A method of a class nested in a class. */
  lemma FullPathNested()
    ensures FullPath(["Outer", "Inner"], "run") == "Outer.Inner.run"
  {
    FullPathExtends(["Outer"], "Inner", "run");
    FullPathQualifies("Outer", "Inner");
    assert ["Outer"] + ["Inner"] == ["Outer", "Inner"];
  }
}
