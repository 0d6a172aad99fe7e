/** Structural tags of a piece of Python code, computed over an abstract syntax tree.
    `ast.parse` is not modelled: its outcome is an input, either a tree or one of the two
    kinds of failure the analyser distinguishes. */
module AstAnalyzer {

  /** The node classes the analyser looks at; every other class is `OtherNode`. A call records
      the called name when the callee is a bare `ast.Name`, and `None` otherwise. */
  datatype Kind =
    | For
    | While
    | If
    | FunctionDef(name: string)
    | ClassDef
    | Call(callee: CalleeName)
    | OtherNode

  datatype CalleeName = BareName(id: string) | NotAName

  datatype Node = Node(kind: Kind, children: seq<Node>)

  /** What `ast.parse` did with the source text. */
  datatype ParseResult =
    | Parsed(tree: Node)
    | SyntaxError(msg: string, lineno: nat)
    | OtherError

  datatype Tag = Loops | Conditionals | Functions | Classes | Recursion | Syntax

  /** `ast.walk`: every node of the tree, the root included (the order is not relied upon). */
  function Walk(n: Node): (r: seq<Node>)
    ensures |r| >= 1 && r[0] == n
    decreases n, 1
  {
    [n] + WalkAll(n.children)
  }

  function WalkAll(ns: seq<Node>): seq<Node>
    decreases ns, 0
  {
    if ns == [] then [] else Walk(ns[0]) + WalkAll(ns[1..])
  }

  /** Some node of the tree rooted at `n`, the root included, satisfies `q`. */
  predicate Somewhere(n: Node, q: Node -> bool)
    decreases n
  {
    q(n) || exists i | 0 <= i < |n.children| :: Somewhere(n.children[i], q)
  }

  predicate IsLoop(m: Node) { m.kind.For? || m.kind.While? }
  predicate IsIf(m: Node) { m.kind.If? }
  predicate IsFunctionDef(m: Node) { m.kind.FunctionDef? }
  predicate IsClassDef(m: Node) { m.kind.ClassDef? }

  /** A call whose callee is the bare name `name`. */
  predicate IsCallTo(name: string, m: Node) { m.kind == Call(BareName(name)) }

  /** The test "is a call to the bare name `name`", as a value `Somewhere` can take. */
  function CallTo(name: string): Node -> bool {
    c => IsCallTo(name, c)
  }

  /** A function definition whose own subtree calls the function by its bare name. */
  predicate IsSelfCallingDef(m: Node) {
    m.kind.FunctionDef? && Somewhere(m, CallTo(m.kind.name))
  }

  /** The tags `analyze_code_structure` promises: a syntax error gives exactly {Syntax}, any
      other failure gives nothing, and a tree gets a tag for each kind of construct it holds. */
  function Features(p: ParseResult): set<Tag> {
    match p
    case SyntaxError(_, _) => {Syntax}
    case OtherError => {}
    case Parsed(t) =>
      (if Somewhere(t, IsLoop) then {Loops} else {}) +
      (if Somewhere(t, IsIf) then {Conditionals} else {}) +
      (if Somewhere(t, IsFunctionDef) then {Functions} else {}) +
      (if Somewhere(t, IsClassDef) then {Classes} else {}) +
      (if Somewhere(t, IsSelfCallingDef) then {Recursion} else {})
  }

  /** Some node that `ast.walk` yields satisfies `q`. */
  predicate WalkFinds(ns: seq<Node>, q: Node -> bool) {
    exists j | 0 <= j < |ns| :: q(ns[j])
  }

  lemma {:induction false} WalkIsSomewhere(n: Node, q: Node -> bool)
    ensures WalkFinds(Walk(n), q) <==> Somewhere(n, q)
    decreases n, 1
  {
    var w := Walk(n);
    WalkAllIsSomewhere(n.children, q);
    if WalkFinds(WalkAll(n.children), q) {
      var j :| 0 <= j < |WalkAll(n.children)| && q(WalkAll(n.children)[j]);
      assert w[j + 1] == WalkAll(n.children)[j];
    }
    if WalkFinds(w, q) && !q(n) {
      var j :| 0 <= j < |w| && q(w[j]);
      assert w[j] == WalkAll(n.children)[j - 1];
    }
  }

  lemma {:induction false} WalkAllIsSomewhere(ns: seq<Node>, q: Node -> bool)
    ensures WalkFinds(WalkAll(ns), q) <==> exists i | 0 <= i < |ns| :: Somewhere(ns[i], q)
    decreases ns, 0
  {
    if ns != [] {
      var a := Walk(ns[0]);
      var b := WalkAll(ns[1..]);
      WalkIsSomewhere(ns[0], q);
      WalkAllIsSomewhere(ns[1..], q);
      assert WalkAll(ns) == a + b;
      if WalkFinds(a, q) {
        var j :| 0 <= j < |a| && q(a[j]);
        assert (a + b)[j] == a[j];
      }
      if WalkFinds(b, q) {
        var j :| 0 <= j < |b| && q(b[j]);
        assert (a + b)[|a| + j] == b[j];
        var i :| 0 <= i < |ns[1..]| && Somewhere(ns[1..][i], q);
        assert ns[i + 1] == ns[1..][i];
      }
      if WalkFinds(a + b, q) {
        var j :| 0 <= j < |a + b| && q((a + b)[j]);
        if j >= |a| {
          assert (a + b)[j] == b[j - |a|];
        }
      }
      if exists i | 0 <= i < |ns| :: Somewhere(ns[i], q) {
        var i :| 0 <= i < |ns| && Somewhere(ns[i], q);
        if i > 0 {
          assert ns[1..][i - 1] == ns[i];
        }
      }
    }
  }

  /** The inner walk of the recursion check: does the subtree of `def` call `name`? */
  method CallsByName(def: Node, name: string) returns (found: bool)
    ensures found <==> Somewhere(def, CallTo(name))
  {
    var sub := Walk(def);
    found := false;
    for k := 0 to |sub|
      invariant found <==> exists j | 0 <= j < k :: IsCallTo(name, sub[j])
    {
      var child := sub[k];
      if child.kind.Call? && child.kind.callee.BareName? && child.kind.callee.id == name {
        found := true;
      }
    }
    WalkIsSomewhere(def, CallTo(name));
  }

  /** The tags the first walk over `nodes` adds, one per kind of construct found. */
  function KindTags(nodes: seq<Node>): set<Tag> {
    (if WalkFinds(nodes, IsLoop) then {Loops} else {}) +
    (if WalkFinds(nodes, IsIf) then {Conditionals} else {}) +
    (if WalkFinds(nodes, IsFunctionDef) then {Functions} else {}) +
    (if WalkFinds(nodes, IsClassDef) then {Classes} else {})
  }

  /** The first walk: each node adds the tag of the first class it belongs to. */
  method TagKinds(nodes: seq<Node>) returns (features: set<Tag>)
    ensures features == KindTags(nodes)
  {
    features := {};
    for i := 0 to |nodes|
      invariant features <= {Loops, Conditionals, Functions, Classes}
      invariant Loops in features <==> WalkFinds(nodes[..i], IsLoop)
      invariant Conditionals in features <==> WalkFinds(nodes[..i], IsIf)
      invariant Functions in features <==> WalkFinds(nodes[..i], IsFunctionDef)
      invariant Classes in features <==> WalkFinds(nodes[..i], IsClassDef)
    {
      var node := nodes[i];
      if node.kind.For? || node.kind.While? {
        features := features + {Loops};
      } else if node.kind.If? {
        features := features + {Conditionals};
      } else if node.kind.FunctionDef? {
        features := features + {Functions};
      } else if node.kind.ClassDef? {
        features := features + {Classes};
      }
      assert nodes[..i + 1] == nodes[..i] + [node];
      WalkFindsSnoc(nodes[..i], node, IsLoop);
      WalkFindsSnoc(nodes[..i], node, IsIf);
      WalkFindsSnoc(nodes[..i], node, IsFunctionDef);
      WalkFindsSnoc(nodes[..i], node, IsClassDef);
    }
    assert nodes[..|nodes|] == nodes;
  }

  lemma WalkFindsSnoc(ns: seq<Node>, m: Node, q: Node -> bool)
    ensures WalkFinds(ns + [m], q) <==> WalkFinds(ns, q) || q(m)
  {
    if WalkFinds(ns, q) {
      var j :| 0 <= j < |ns| && q(ns[j]);
      assert (ns + [m])[j] == ns[j];
    }
    if WalkFinds(ns + [m], q) && !q(m) {
      var j :| 0 <= j < |ns + [m]| && q((ns + [m])[j]);
      assert j < |ns| && (ns + [m])[j] == ns[j];
    }
    assert (ns + [m])[|ns|] == m;
  }

  /** The second walk: some function definition among `nodes` calls its own name. */
  method FindSelfCall(nodes: seq<Node>) returns (recursive: bool)
    ensures recursive <==> WalkFinds(nodes, IsSelfCallingDef)
  {
    recursive := false;
    for i := 0 to |nodes|
      invariant recursive <==> WalkFinds(nodes[..i], IsSelfCallingDef)
    {
      var node := nodes[i];
      if node.kind.FunctionDef? {
        var found := CallsByName(node, node.kind.name);
        if found {
          recursive := true;
        }
      }
      assert nodes[..i + 1] == nodes[..i] + [node];
      WalkFindsSnoc(nodes[..i], node, IsSelfCallingDef);
    }
    assert nodes[..|nodes|] == nodes;
  }

  /** analyze_code_structure: one walk tags the kinds of node, then, when a function was seen, a
      second walk looks inside every function definition for a call to its own name. */
  method AnalyzeCodeStructure(p: ParseResult) returns (features: set<Tag>)
    ensures features == Features(p)
  {
    match p {
      case SyntaxError(_, _) =>
        features := {Syntax};
      case OtherError =>
        features := {};
      case Parsed(tree) =>
        var nodes := Walk(tree);
        features := TagKinds(nodes);
        if Functions in features {
          var recursive := FindSelfCall(nodes);
          if recursive {
            features := features + {Recursion};
          }
        }
        WalkIsSomewhere(tree, IsLoop);
        WalkIsSomewhere(tree, IsIf);
        WalkIsSomewhere(tree, IsFunctionDef);
        WalkIsSomewhere(tree, IsClassDef);
        WalkIsSomewhere(tree, IsSelfCallingDef);
        if Functions !in KindTags(nodes) {
          RecursionNeedsFunctionTag(nodes);
        }
    }
  }

  lemma RecursionNeedsFunctionTag(nodes: seq<Node>)
    requires !WalkFinds(nodes, IsFunctionDef)
    ensures !WalkFinds(nodes, IsSelfCallingDef)
  {
    forall j | 0 <= j < |nodes| ensures !IsSelfCallingDef(nodes[j]) {
      assert !IsFunctionDef(nodes[j]);
    }
  }

  /** A parse failure of the syntax kind yields exactly the Syntax tag, and a successful parse
      never yields it. */
  lemma SyntaxTagIffSyntaxError(p: ParseResult)
    ensures Syntax in Features(p) <==> p.SyntaxError?
    ensures p.SyntaxError? ==> Features(p) == {Syntax}
    ensures p.OtherError? ==> Features(p) == {}
  {
  }

  /** A function that calls itself is a function: Recursion implies Functions. */
  lemma {:induction false} RecursionImpliesFunctions(n: Node)
    requires Somewhere(n, IsSelfCallingDef)
    ensures Somewhere(n, IsFunctionDef)
    decreases n
  {
    if !IsSelfCallingDef(n) {
      var i :| 0 <= i < |n.children| && Somewhere(n.children[i], IsSelfCallingDef);
      RecursionImpliesFunctions(n.children[i]);
    }
  }

  /** Recursion always comes with Functions (the six tags are the whole `Tag` type). */
  lemma FeaturesShape(p: ParseResult)
    ensures Recursion in Features(p) ==> Functions in Features(p)
  {
    if p.Parsed? && Somewhere(p.tree, IsSelfCallingDef) {
      RecursionImpliesFunctions(p.tree);
    }
  }
}
