/** The Python outline extractor: a visitor over the syntax tree that records classes and
    functions under their dotted paths, each qualified name once. */
module PythonOutline {
  import opened Wrappers
  import opened Text
  import opened Declarations

  /** The node kinds the visitor tells apart. */
  datatype NodeKind = ClassDef | FunctionDef | AsyncFunctionDef | Other

  /** A syntax-tree node as the parser gives it: its kind, its name (empty for nodes that have
      none), its line number, what `ast.get_docstring` gives for it, and its child nodes in the
      order `generic_visit` visits them. */
  datatype Node = Node(kind: NodeKind, name: string, lineno: int, docstring: Option<string>, children: seq<Node>)

  /** `supports_file`: the lower-cased name ends in `.py`. */
  function SupportsFile(filename: string): (b: bool)
    ensures b <==> |filename| >= 3 && filename[|filename| - 3] == '.'
                   && LowerChar(filename[|filename| - 2]) == 'p'
                   && LowerChar(filename[|filename| - 1]) == 'y'
  {
    var low := Lower(filename);
    assert EndsWith(low, ".py") <==> |low| >= 3 && low[|low| - 3] == '.' && low[|low| - 2] == 'p' && low[|low| - 1] == 'y';
    EndsWith(low, ".py")
  }

  // ---------------------------------------------------------------------------------------
  // The helpers of extract_functions

  /** `get_docstring`: for a class or function with a non-empty docstring, its first line
      stripped; otherwise nothing. */
  function GetDocstring(node: Node): Option<string> {
    if node.kind == Other || node.docstring.None? || node.docstring.value == "" then None
    else Some(Strip(Split(node.docstring.value, '\n')[0]))
  }

  /** The comment taken from a docstring exists exactly for a class or function whose
      docstring is non-empty. It is one line: the first line of the docstring, which runs up
      to the first newline or the end, with exactly its leading and trailing whitespace cut
      off. */
  lemma DocstringFirstLine(node: Node)
    ensures GetDocstring(node).Some? <==> node.kind != Other && node.docstring.Some? && node.docstring.value != ""
    ensures GetDocstring(node).Some? ==>
              var d, c := node.docstring.value, GetDocstring(node).value;
              var first := Split(d, '\n')[0];
              && StartsWith(d, first)
              && (|first| == |d| || d[|first|] == '\n')
              && '\n' !in first && '\n' !in c
              && OccursAt(first, c, LeadingSpaces(first))
              && (forall k :: 0 <= k < LeadingSpaces(first) ==> IsSpace(first[k]))
              && (forall k :: LeadingSpaces(first) + |c| <= k < |first| ==> IsSpace(first[k]))
              && (c != [] ==> !IsSpace(c[0]) && !IsSpace(c[|c| - 1]))
  {
    if GetDocstring(node).Some? {
      var d := node.docstring.value;
      var parts := Split(d, '\n');
      var first := parts[0];
      var c := Strip(first);
      SplitFirst(d, '\n');
      StripSpec(first);
      assert '\n' !in first;
      SliceAvoids(first, c, LeadingSpaces(first), '\n');
    }
  }

  /** A slice of a string without the character `x` does not hold `x` either. */
  lemma SliceAvoids(s: string, t: string, i: int, x: char)
    requires OccursAt(s, t, i) && x !in s
    ensures x !in t
  {
    forall k | 0 <= k < |t|
      ensures t[k] != x
    {
      assert t[k] == s[i + k];
    }
  }

  /** `should_include_function`: private names and the unittest fixtures are left out. */
  predicate ShouldInclude(name: string) {
    !(StartsWith(name, "_") || name in ["setUp", "tearDown", "setUpClass", "tearDownClass"])
  }

  /** A name `add_function` records: non-empty and included. */
  predicate Includable(name: string) {
    name != "" && ShouldInclude(name)
  }

  /** The names recorded so far and the records. */
  datatype Outline = Outline(seen: set<string>, functions: seq<FunctionInfo>)

  /** The record of a declaration node under its full name: the node's line, and its docstring
      as the comment. */
  function Entry(fullName: string, node: Node): FunctionInfo {
    Record(fullName, node.lineno, Function, GetDocstring(node))
  }

  /** `add_function`: an excluded name, or a full name already seen, changes nothing; otherwise
      the full name is marked seen and recorded. */
  function AddEntry(o: Outline, path: seq<string>, name: string, node: Node): Outline {
    if !Includable(name) then o
    else
      var full := FullPath(path, name);
      if full in o.seen then o else Outline(o.seen + {full}, o.functions + [Entry(full, node)])
  }

  /** The visit of `node` under the path `path`. A class pushes its name before recording
      itself, so that it is recorded under its own name and its children are visited inside
      it; a function is recorded and its children visited under the same path; any other node
      only has its children visited. */
  function VisitTree(o: Outline, path: seq<string>, node: Node): Outline
    decreases node
  {
    match node.kind
    case ClassDef =>
      var inner := path + [node.name];
      VisitTrees(AddEntry(o, inner, node.name, node), inner, node.children)
    case Other => VisitTrees(o, path, node.children)
    case _ => VisitTrees(AddEntry(o, path, node.name, node), path, node.children)
  }

  /** The visits of `nodes` in order, each under `path`. */
  function VisitTrees(o: Outline, path: seq<string>, nodes: seq<Node>): Outline
    decreases nodes
  {
    if nodes == [] then o else VisitTrees(VisitTree(o, path, nodes[0]), path, nodes[1..])
  }

  /** What `extract_functions` returns: the records of a visit of the parsed module, or none
      when the text does not parse. */
  function PythonFunctions(content: string, parse: string -> Option<Node>): seq<FunctionInfo> {
    match parse(content)
    case None => []
    case Some(tree) => VisitTree(Outline({}, []), [], tree).functions
  }

  // ---------------------------------------------------------------------------------------
  // The visitor

  /** The `Visitor` with the variables of `extract_functions` it updates: the current path,
      the seen names and the records. */
  class Visitor {
    var currentPath: seq<string>
    var seenNames: set<string>
    var functions: seq<FunctionInfo>

    constructor ()
      ensures currentPath == [] && seenNames == {} && functions == []
    {
      currentPath, seenNames, functions := [], {}, [];
    }

    function State(): Outline
      reads this
    {
      Outline(seenNames, functions)
    }

    /** `add_function(name, node)` under the current path. */
    method AddFunction(name: string, node: Node)
      modifies this
      ensures currentPath == old(currentPath)
      ensures State() == AddEntry(old(State()), currentPath, name, node)
    {
      if name == "" {
        return;
      }
      if !ShouldInclude(name) {
        return;
      }
      var fullName := FullPath(currentPath, name);
      if fullName in seenNames {
        return;
      }
      seenNames := seenNames + {fullName};
      var leadingComment := GetDocstring(node);
      functions := functions + [Record(fullName, node.lineno, Function, leadingComment)];
    }

    /** `visit`: dispatch to `visit_ClassDef`, `visit_FunctionDef`, `visit_AsyncFunctionDef`,
        or `generic_visit` for any other node. The path is restored after a class. */
    method Visit(node: Node)
      modifies this
      decreases node, 1
      ensures currentPath == old(currentPath)
      ensures State() == VisitTree(old(State()), old(currentPath), node)
    {
      match node.kind {
        case ClassDef =>
          var prevPath := currentPath;
          currentPath := currentPath + [node.name];
          AddFunction(node.name, node);
          GenericVisit(node.children);
          currentPath := prevPath;
        case Other =>
          GenericVisit(node.children);
        case _ =>
          AddFunction(node.name, node);
          GenericVisit(node.children);
      }
    }

    /** `generic_visit`: visits the children in order. */
    method GenericVisit(nodes: seq<Node>)
      modifies this
      decreases nodes, 0
      ensures currentPath == old(currentPath)
      ensures State() == VisitTrees(old(State()), old(currentPath), nodes)
    {
      var i := 0;
      while i < |nodes|
        invariant 0 <= i <= |nodes|
        invariant currentPath == old(currentPath)
        invariant VisitTrees(old(State()), currentPath, nodes) == VisitTrees(State(), currentPath, nodes[i..])
      {
        assert nodes[i..][1..] == nodes[i + 1..];
        Visit(nodes[i]);
        i := i + 1;
      }
    }
  }

  /** `extract_functions`: parse, then visit the module with a fresh visitor. */
  method ExtractFunctions(content: string, parse: string -> Option<Node>) returns (functions: seq<FunctionInfo>)
    ensures functions == PythonFunctions(content, parse)
  {
    var visitor := new Visitor();
    var tree := parse(content);
    if tree.Some? {
      visitor.Visit(tree.value);
    }
    functions := visitor.functions;
  }

  // ---------------------------------------------------------------------------------------
  // The outline as a reference definition

  /** A declaration the visitor would record, under its full name. */
  datatype Candidate = Candidate(fullName: string, node: Node)

  /** The includable classes and functions of `node` in pre-order, under their full names, with
      every class on the path of what it contains, whether or not the class itself is included. */
  function Decls(path: seq<string>, node: Node): seq<Candidate>
    decreases node
  {
    match node.kind
    case ClassDef =>
      var inner := path + [node.name];
      (if Includable(node.name) then [Candidate(FullPath(inner, node.name), node)] else []) + DeclsOf(inner, node.children)
    case Other => DeclsOf(path, node.children)
    case _ =>
      (if Includable(node.name) then [Candidate(FullPath(path, node.name), node)] else []) + DeclsOf(path, node.children)
  }

  function DeclsOf(path: seq<string>, nodes: seq<Node>): seq<Candidate>
    decreases nodes
  {
    if nodes == [] then [] else Decls(path, nodes[0]) + DeclsOf(path, nodes[1..])
  }

  /** The full names of a list of candidates. */
  function CandidateNames(cs: seq<Candidate>): set<string> {
    set c | c in cs :: c.fullName
  }

  /** The first candidate of each full name not in `seen`, in order, as records. */
  function FirstOccurrences(seen: set<string>, cs: seq<Candidate>): seq<FunctionInfo>
    decreases |cs|
  {
    if cs == [] then []
    else if cs[0].fullName in seen then FirstOccurrences(seen, cs[1..])
    else [Entry(cs[0].fullName, cs[0].node)] + FirstOccurrences(seen + {cs[0].fullName}, cs[1..])
  }

  lemma CandidateNamesCons(cs: seq<Candidate>)
    requires cs != []
    ensures CandidateNames(cs) == {cs[0].fullName} + CandidateNames(cs[1..])
  {
    assert forall c :: c in cs <==> c == cs[0] || c in cs[1..];
  }

  lemma {:induction false} FirstOccurrencesAppend(seen: set<string>, a: seq<Candidate>, b: seq<Candidate>)
    ensures FirstOccurrences(seen, a + b) == FirstOccurrences(seen, a) + FirstOccurrences(seen + CandidateNames(a), b)
    decreases |a|
  {
    if a == [] {
      assert a + b == b;
      assert CandidateNames(a) == {};
      assert seen + {} == seen;
    } else {
      assert (a + b)[0] == a[0] && (a + b)[1..] == a[1..] + b;
      CandidateNamesCons(a);
      if a[0].fullName in seen {
        FirstOccurrencesAppend(seen, a[1..], b);
        assert seen + CandidateNames(a) == seen + CandidateNames(a[1..]);
      } else {
        FirstOccurrencesAppend(seen + {a[0].fullName}, a[1..], b);
        assert seen + {a[0].fullName} + CandidateNames(a[1..]) == seen + CandidateNames(a);
      }
    }
  }

  /** Adding a declaration node's entry is taking the first occurrences of its candidate. */
  lemma AddEntryIsFirstOccurrence(o: Outline, path: seq<string>, name: string, node: Node)
    ensures var cs := if Includable(name) then [Candidate(FullPath(path, name), node)] else [];
      AddEntry(o, path, name, node) == Outline(o.seen + CandidateNames(cs), o.functions + FirstOccurrences(o.seen, cs))
  {
    var cs := if Includable(name) then [Candidate(FullPath(path, name), node)] else [];
    if Includable(name) {
      assert CandidateNames(cs) == {FullPath(path, name)} by {
        assert forall c :: c in cs <==> c == cs[0];
      }
      assert FirstOccurrences(o.seen + {FullPath(path, name)}, []) == [];
    } else {
      assert CandidateNames(cs) == {};
    }
  }

  /** The visit records exactly the first occurrences, in pre-order, of the includable
      declarations' full names, and marks all of them seen. */
  lemma {:induction false} VisitTreeIsFirstOccurrences(o: Outline, path: seq<string>, node: Node)
    ensures VisitTree(o, path, node)
            == Outline(o.seen + CandidateNames(Decls(path, node)), o.functions + FirstOccurrences(o.seen, Decls(path, node)))
    decreases node, 1
  {
    var p := if node.kind == ClassDef then path + [node.name] else path;
    var own := if node.kind != Other && Includable(node.name) then [Candidate(FullPath(p, node.name), node)] else [];
    var o1 := if node.kind == Other then o else AddEntry(o, p, node.name, node);
    var inner := DeclsOf(p, node.children);
    if node.kind != Other {
      AddEntryIsFirstOccurrence(o, p, node.name, node);
    } else {
      assert CandidateNames(own) == {};
    }
    assert VisitTree(o, path, node) == VisitTrees(o1, p, node.children);
    assert Decls(path, node) == own + inner;
    VisitTreesIsFirstOccurrences(o1, p, node.children);
    FirstOccurrencesAppend(o.seen, own, inner);
    CandidateNamesAppend(own, inner);
    Compose(o, own, inner);
  }

  lemma {:induction false} VisitTreesIsFirstOccurrences(o: Outline, path: seq<string>, nodes: seq<Node>)
    ensures VisitTrees(o, path, nodes)
            == Outline(o.seen + CandidateNames(DeclsOf(path, nodes)), o.functions + FirstOccurrences(o.seen, DeclsOf(path, nodes)))
    decreases nodes, 0
  {
    if nodes == [] {
      assert CandidateNames([]) == {};
    } else {
      var head, rest := Decls(path, nodes[0]), DeclsOf(path, nodes[1..]);
      assert DeclsOf(path, nodes) == head + rest;
      var o1 := VisitTree(o, path, nodes[0]);
      assert VisitTrees(o, path, nodes) == VisitTrees(o1, path, nodes[1..]);
      VisitTreeIsFirstOccurrences(o, path, nodes[0]);
      VisitTreesIsFirstOccurrences(o1, path, nodes[1..]);
      FirstOccurrencesAppend(o.seen, head, rest);
      CandidateNamesAppend(head, rest);
      Compose(o, head, rest);
    }
  }

  /** Two steps that each take first occurrences compose into one over the concatenation. */
  lemma Compose(o: Outline, a: seq<Candidate>, b: seq<Candidate>)
    requires CandidateNames(a + b) == CandidateNames(a) + CandidateNames(b)
    requires FirstOccurrences(o.seen, a + b) == FirstOccurrences(o.seen, a) + FirstOccurrences(o.seen + CandidateNames(a), b)
    ensures var o1 := Outline(o.seen + CandidateNames(a), o.functions + FirstOccurrences(o.seen, a));
      Outline(o1.seen + CandidateNames(b), o1.functions + FirstOccurrences(o1.seen, b))
      == Outline(o.seen + CandidateNames(a + b), o.functions + FirstOccurrences(o.seen, a + b))
  {
  }

  lemma CandidateNamesAppend(a: seq<Candidate>, b: seq<Candidate>)
    ensures CandidateNames(a + b) == CandidateNames(a) + CandidateNames(b)
  {
    assert forall c :: c in a + b <==> c in a || c in b;
  }

  /** The first occurrences carry distinct names, none of them in `seen`, and every candidate
      name outside `seen` is among them. */
  lemma {:induction false} FirstOccurrencesNames(seen: set<string>, cs: seq<Candidate>)
    ensures DistinctNames(FirstOccurrences(seen, cs))
    ensures forall x :: x in Names(FirstOccurrences(seen, cs)) <==> x in CandidateNames(cs) && x !in seen
    decreases |cs|
  {
    if cs != [] {
      CandidateNamesCons(cs);
      if cs[0].fullName in seen {
        FirstOccurrencesNames(seen, cs[1..]);
      } else {
        var seen' := seen + {cs[0].fullName};
        var rest := FirstOccurrences(seen', cs[1..]);
        FirstOccurrencesNames(seen', cs[1..]);
        var r := [Entry(cs[0].fullName, cs[0].node)] + rest;
        assert Names(r) == [cs[0].fullName] + Names(rest);
        forall a, b | 0 <= a < b < |r|
          ensures r[a].name != r[b].name
        {
          if a == 0 {
            assert r[b] == rest[b - 1];
            assert r[b].name == Names(rest)[b - 1];
          } else {
            assert r[a] == rest[a - 1] && r[b] == rest[b - 1];
          }
        }
      }
    }
  }

  /** The outline of a module that parses: the first occurrence of each includable
      declaration's full name, in pre-order, with pairwise distinct names; none when the text
      does not parse. */
  lemma FileOutline(content: string, parse: string -> Option<Node>)
    ensures parse(content).None? ==> PythonFunctions(content, parse) == []
    ensures parse(content).Some? ==>
              var cs := Decls([], parse(content).value);
              && PythonFunctions(content, parse) == FirstOccurrences({}, cs)
              && DistinctNames(PythonFunctions(content, parse))
              && forall x :: x in Names(PythonFunctions(content, parse)) <==> x in CandidateNames(cs)
  {
    if parse(content).Some? {
      var tree := parse(content).value;
      VisitTreeIsFirstOccurrences(Outline({}, []), [], tree);
      FirstOccurrencesNames({}, Decls([], tree));
    }
  }

  /** A class with one method, visited at the top level from a fresh outline, records the
      class under its own name qualified by itself, then the method qualified by the class. */
  lemma ClassWithMethod(c: Node, m: Node)
    requires c.kind == ClassDef && c.children == [m] && m.kind == FunctionDef && m.children == []
    requires Includable(c.name) && Includable(m.name) && c.name != m.name
    ensures Names(VisitTree(Outline({}, []), [], c).functions) == [c.name + "." + c.name, c.name + "." + m.name]
  {
    var cn, mn := c.name + "." + c.name, c.name + "." + m.name;
    FullPathQualifies(c.name, c.name);
    FullPathQualifies(c.name, m.name);
    assert cn != mn by {
      assert cn[|c.name| + 1..] == c.name && mn[|c.name| + 1..] == m.name;
    }
    assert [c.name] == [] + [c.name];
    var o0 := Outline({}, []);
    var o1 := AddEntry(o0, [c.name], c.name, c);
    assert o1 == Outline({cn}, [Entry(cn, c)]);
    var o2 := AddEntry(o1, [c.name], m.name, m);
    assert o2.functions == [Entry(cn, c), Entry(mn, m)];
    assert VisitTree(o1, [c.name], m) == o2;
    assert VisitTrees(o1, [c.name], [m]) == o2;
    assert VisitTree(o0, [], c) == o2;
    var fs := o2.functions;
    assert Names(fs) == [fs[0].name] + Names(fs[1..]);
    assert Names(fs[1..]) == [fs[1].name] + Names(fs[2..]);
  }

  /** A top-level class `MyClass` with a method `my_method` gives `MyClass.MyClass` and
      `MyClass.my_method`. */
  lemma ClassMethodExample()
    ensures var m := Node(FunctionDef, "my_method", 3, None, []);
      var c := Node(ClassDef, "MyClass", 2, None, [m]);
      Names(VisitTree(Outline({}, []), [], Node(Other, "", 0, None, [c])).functions)
        == ["MyClass.MyClass", "MyClass.my_method"]
  {
    var m := Node(FunctionDef, "my_method", 3, None, []);
    var c := Node(ClassDef, "MyClass", 2, None, [m]);
    var top := Node(Other, "", 0, None, [c]);
    assert Includable("MyClass") by {
      assert "MyClass"[..1] == "M";
    }
    assert Includable("my_method") by {
      assert "my_method"[..1] == "m";
    }
    ClassWithMethod(c, m);
    var o0 := Outline({}, []);
    assert [c][1..] == [];
    assert VisitTrees(o0, [], [c]) == VisitTrees(VisitTree(o0, [], c), [], []);
    assert VisitTree(o0, [], top) == VisitTree(o0, [], c);
    assert "MyClass" + "." + "MyClass" == "MyClass.MyClass";
    assert "MyClass" + "." + "my_method" == "MyClass.my_method";
  }

  /** The children of a private class are still visited, inside it: a method `run` of a class
      `_Hidden` is recorded as `_Hidden.run`, the class itself is not. */
  lemma PrivateClassExample()
    ensures var m := Node(FunctionDef, "run", 2, None, []);
      var c := Node(ClassDef, "_Hidden", 1, None, [m]);
      Names(VisitTree(Outline({}, []), [], c).functions) == ["_Hidden.run"]
  {
    var m := Node(FunctionDef, "run", 2, None, []);
    var c := Node(ClassDef, "_Hidden", 1, None, [m]);
    assert !Includable("_Hidden") by {
      assert "_Hidden"[..1] == "_";
    }
    assert Includable("run") by {
      assert "run"[..1] == "r";
    }
    FullPathQualifies("_Hidden", "run");
    assert "_Hidden" + "." + "run" == "_Hidden.run";
    var o0 := Outline({}, []);
    assert AddEntry(o0, ["_Hidden"], "_Hidden", c) == o0;
    var o2 := AddEntry(o0, ["_Hidden"], "run", m);
    assert o2.functions == [Entry("_Hidden.run", m)];
    assert VisitTree(o0, ["_Hidden"], m) == o2;
    assert VisitTrees(o0, ["_Hidden"], [m]) == o2;
    assert ["_Hidden"] == [] + ["_Hidden"];
    assert VisitTree(o0, [], c) == o2;
    var fs := o2.functions;
    assert Names(fs) == [fs[0].name] + Names(fs[1..]);
  }
}
