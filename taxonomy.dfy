/** The fixed error taxonomy, the child-to-parent map built from it, and the
    nearest-common-ancestor rule used to name a detected concept. */
module Taxonomy {
  import opened Tables

  const RootName := "Root"

  /** ERROR_TAXONOMY: each key with the list of its children, in the dictionary's order. */
  const ErrorTaxonomy: seq<(string, seq<string>)> := [
    ("Root", RootChildren),
    ("Logic_Errors", LogicChildren),
    ("Syntax_Errors", SyntaxChildren),
    ("Runtime_Errors", RuntimeChildren),
    ("Loops", LoopChildren),
    ("Recursion", RecursionChildren),
    ("Conditionals", ConditionalChildren),
    ("Data_Structures", DataStructureChildren)
  ]

  const RootChildren: seq<string> := ["Logic_Errors", "Syntax_Errors", "Runtime_Errors"]
  const LogicChildren: seq<string> := ["Loops", "Recursion", "Conditionals", "Data_Structures"]
  const SyntaxChildren: seq<string> := ["Indentation", "Typos", "Missing_Symbols"]
  const RuntimeChildren: seq<string> := ["ZeroDivision", "IndexError", "TypeError"]
  const LoopChildren: seq<string> := ["Infinite_Loop", "Off_By_One", "For_Loop_Range"]
  const RecursionChildren: seq<string> := ["Missing_Base_Case", "Stack_Overflow", "Incorrect_Recursive_Call"]
  const ConditionalChildren: seq<string> := ["Incorrect_Comparison", "Else_If_Order"]
  const DataStructureChildren: seq<string> := ["KeyError", "List_Mutation"]

  /** `k` is a key of the taxonomy. */
  predicate IsKey(tax: seq<(string, seq<string>)>, k: string) {
    exists i | 0 <= i < |tax| :: tax[i].0 == k
  }

  /** All child names, list after list. */
  function AllChildren(tax: seq<(string, seq<string>)>): seq<string> {
    if tax == [] then [] else tax[0].1 + AllChildren(tax[1..])
  }

  /** Every child name appears once, in one list only. */
  ghost predicate UniqueChildren(tax: seq<(string, seq<string>)>) {
    NoDuplicates(AllChildren(tax))
  }

  /** Each child of a list mapped to the list's key. */
  function ChildMap(children: seq<string>, parent: string): map<string, string> {
    map c | c in children :: parent
  }

  /** The dictionary the module-level double loop builds: for each key in order, each of its
      children is mapped to it, a later assignment replacing an earlier one. */
  function ParentMapOf(tax: seq<(string, seq<string>)>): map<string, string> {
    if tax == [] then map[] else ChildMap(tax[0].1, tax[0].0) + ParentMapOf(tax[1..])
  }

  lemma MapUnionAssoc(a: map<string, string>, b: map<string, string>, c: map<string, string>)
    ensures a + (b + c) == (a + b) + c
  {
    var l := a + (b + c);
    var r := (a + b) + c;
    assert l.Keys == r.Keys;
    forall k | k in l ensures l[k] == r[k] { }
  }

  lemma {:induction false} ParentMapSnoc(tax: seq<(string, seq<string>)>, i: nat)
    requires i < |tax|
    ensures ParentMapOf(tax[..i + 1]) == ParentMapOf(tax[..i]) + ChildMap(tax[i].1, tax[i].0)
    decreases i
  {
    var c := ChildMap(tax[i].1, tax[i].0);
    if i == 0 {
      assert tax[..1][1..] == [];
      assert tax[..0] == [];
      assert ParentMapOf(tax[..1]) == c + map[];
      assert c + map[] == c;
      assert map[] + c == c;
    } else {
      var t := tax[1..];
      var h := ChildMap(tax[0].1, tax[0].0);
      assert tax[..i + 1][1..] == t[..i];
      assert tax[..i][1..] == t[..i - 1];
      assert t[i - 1] == tax[i];
      ParentMapSnoc(t, i - 1);
      assert ParentMapOf(tax[..i + 1]) == h + ParentMapOf(t[..i]);
      assert ParentMapOf(tax[..i]) == h + ParentMapOf(t[..i - 1]);
      MapUnionAssoc(h, ParentMapOf(t[..i - 1]), c);
    }
  }

  /** The inner loop: each child of one key is mapped to that key. */
  method AddChildren(pm: map<string, string>, children: seq<string>, parent: string)
    returns (pm': map<string, string>)
    ensures pm' == pm + ChildMap(children, parent)
  {
    pm' := pm;
    for j := 0 to |children|
      invariant pm' == pm + ChildMap(children[..j], parent)
    {
      assert children[..j + 1] == children[..j] + [children[j]];
      assert ChildMap(children[..j + 1], parent) == ChildMap(children[..j], parent)[children[j] := parent];
      pm' := pm'[children[j] := parent];
    }
    assert children[..|children|] == children;
  }

  /** PARENT_MAP, filled by the nested loop over the taxonomy. */
  method BuildParentMap(tax: seq<(string, seq<string>)>) returns (pm: map<string, string>)
    ensures pm == ParentMapOf(tax)
  {
    pm := map[];
    for i := 0 to |tax|
      invariant pm == ParentMapOf(tax[..i])
    {
      ParentMapSnoc(tax, i);
      pm := AddChildren(pm, tax[i].1, tax[i].0);
    }
    assert tax[..|tax|] == tax;
  }

  lemma {:induction false} InAllChildren(tax: seq<(string, seq<string>)>, i: nat, c: string)
    requires i < |tax| && c in tax[i].1
    ensures c in AllChildren(tax)
    decreases i
  {
    if i > 0 {
      assert tax[1..][i - 1] == tax[i];
      InAllChildren(tax[1..], i - 1, c);
    }
  }

  lemma NoDuplicatesSplit(h: seq<string>, r: seq<string>, p: nat, q: nat)
    requires NoDuplicates(h + r) && p < |h| && q < |r|
    ensures h[p] != r[q]
  {
    assert (h + r)[p] == h[p];
    assert (h + r)[|h| + q] == r[q];
  }

  /** With unique children the map sends each child to the key whose list contains it. */
  lemma {:induction false} ParentOfChild(tax: seq<(string, seq<string>)>, i: nat, c: string)
    requires UniqueChildren(tax)
    requires i < |tax| && c in tax[i].1
    ensures c in ParentMapOf(tax) && ParentMapOf(tax)[c] == tax[i].0
    decreases i
  {
    var all := AllChildren(tax);
    var head := tax[0].1;
    var rest := AllChildren(tax[1..]);
    assert all == head + rest;
    assert NoDuplicates(rest) by {
      forall p, q | 0 <= p < q < |rest| ensures rest[p] != rest[q] {
        assert rest[p] == all[|head| + p] && rest[q] == all[|head| + q];
      }
    }
    if i == 0 {
      var p :| 0 <= p < |head| && head[p] == c;
      forall q | 0 <= q < |rest| ensures rest[q] != c {
        NoDuplicatesSplit(head, rest, p, q);
      }
      NotAChild(tax[1..], c);
    } else {
      assert tax[1..][i - 1] == tax[i];
      ParentOfChild(tax[1..], i - 1, c);
    }
  }

  /** Everything in the map is a child of some key, and is mapped to a key whose list holds it. */
  lemma {:induction false} ParentMapSound(tax: seq<(string, seq<string>)>, c: string)
    requires c in ParentMapOf(tax)
    ensures exists i | 0 <= i < |tax| :: c in tax[i].1 && ParentMapOf(tax)[c] == tax[i].0
    decreases |tax|
  {
    if c in ParentMapOf(tax[1..]) {
      ParentMapSound(tax[1..], c);
      var i :| 0 <= i < |tax[1..]| && c in tax[1..][i].1 && ParentMapOf(tax[1..])[c] == tax[1..][i].0;
      assert tax[1..][i] == tax[i + 1];
    }
  }

  /** ERROR_TAXONOMY's child lists, joined in order. */
  lemma ErrorTaxonomyJoined()
    ensures AllChildren(ErrorTaxonomy) ==
      RootChildren + LogicChildren + SyntaxChildren + RuntimeChildren + LoopChildren +
      RecursionChildren + ConditionalChildren + DataStructureChildren
  {
    var t := ErrorTaxonomy;
    assert AllChildren(t[8..]) == [];
    assert AllChildren(t[7..]) == DataStructureChildren;
    assert AllChildren(t[6..]) == ConditionalChildren + AllChildren(t[7..]);
    assert AllChildren(t[5..]) == RecursionChildren + AllChildren(t[6..]);
    assert AllChildren(t[4..]) == LoopChildren + AllChildren(t[5..]);
    assert AllChildren(t[3..]) == RuntimeChildren + AllChildren(t[4..]);
    assert AllChildren(t[2..]) == SyntaxChildren + AllChildren(t[3..]);
    assert AllChildren(t[1..]) == LogicChildren + AllChildren(t[2..]);
    assert AllChildren(t) == RootChildren + AllChildren(t[1..]);
  }

  /** The children of ERROR_TAXONOMY, list after list. */
  const ChildNames: seq<string> :=
    ["Logic_Errors", "Syntax_Errors", "Runtime_Errors", "Loops", "Recursion",
     "Conditionals", "Data_Structures", "Indentation", "Typos", "Missing_Symbols",
     "ZeroDivision", "IndexError", "TypeError", "Infinite_Loop", "Off_By_One",
     "For_Loop_Range", "Missing_Base_Case", "Stack_Overflow", "Incorrect_Recursive_Call",
     "Incorrect_Comparison", "Else_If_Order", "KeyError", "List_Mutation"]

  lemma ChildListsJoined()
    ensures RootChildren + LogicChildren + SyntaxChildren + RuntimeChildren + LoopChildren +
      RecursionChildren + ConditionalChildren + DataStructureChildren == ChildNames
  {
  }

  /** A name's length and first letter, which already tell the child names apart. */
  function Fingerprint(name: string): (int, char) {
    if name == [] then (0, ' ') else (|name|, name[0])
  }

  lemma FingerprintsDistinct()
    ensures forall i, j :: 0 <= i < j < |ChildNames| ==> Fingerprint(ChildNames[i]) != Fingerprint(ChildNames[j])
  {
  }

  /** ERROR_TAXONOMY lists every child once. */
  lemma ErrorTaxonomyHasUniqueChildren()
    ensures UniqueChildren(ErrorTaxonomy)
  {
    ErrorTaxonomyJoined();
    ChildListsJoined();
    FingerprintsDistinct();
  }

  /** A name that is nobody's child has no entry in the map. */
  lemma NotAChild(tax: seq<(string, seq<string>)>, c: string)
    requires c !in AllChildren(tax)
    ensures c !in ParentMapOf(tax)
  {
    if c in ParentMapOf(tax) {
      ParentMapSound(tax, c);
      var i :| 0 <= i < |tax| && c in tax[i].1 && ParentMapOf(tax)[c] == tax[i].0;
      InAllChildren(tax, i, c);
    }
  }

  /** PARENT_MAP itself. */
  function ParentMap(): map<string, string> {
    ParentMapOf(ErrorTaxonomy)
  }

  /** "Root" has no entry in PARENT_MAP, and is a key of the taxonomy. */
  lemma RootHasNoParent()
    ensures RootName !in ParentMap()
    ensures IsKey(ErrorTaxonomy, RootName)
  {
    ErrorTaxonomyJoined();
    ChildListsJoined();
    assert RootName !in ChildNames;
    NotAChild(ErrorTaxonomy, RootName);
    assert ErrorTaxonomy[0].0 == RootName;
  }

  /** `PARENT_MAP.get(err, "Root")`. */
  function ParentOrRoot(pm: map<string, string>, err: string): string {
    if err in pm then pm[err] else RootName
  }

  /** Every listed error has the same parent as the first one. */
  predicate SharedParent(pm: map<string, string>, errors: seq<string>)
    requires errors != []
  {
    forall k | 0 <= k < |errors| :: ParentOrRoot(pm, errors[k]) == ParentOrRoot(pm, errors[0])
  }

  /** The meaning of `get_common_ancestor`: "Root" for no errors; the shared parent when all
      errors have the same parent (a name without one counts as a child of "Root"); otherwise
      "Root". */
  function CommonAncestor(pm: map<string, string>, errors: seq<string>): string {
    if errors == [] then RootName
    else if SharedParent(pm, errors) then ParentOrRoot(pm, errors[0])
    else RootName
  }

  /** The set of parents has one element exactly when all errors share the first one's parent. */
  lemma OneParentIffShared(pm: map<string, string>, errors: seq<string>, parents: set<string>)
    requires errors != []
    requires parents == set k | 0 <= k < |errors| :: ParentOrRoot(pm, errors[k])
    ensures |parents| == 1 <==> SharedParent(pm, errors)
    ensures |parents| == 1 ==> parents == {ParentOrRoot(pm, errors[0])}
  {
    var p0 := ParentOrRoot(pm, errors[0]);
    assert p0 in parents;
    if SharedParent(pm, errors) {
      assert parents == {p0};
    } else {
      var k :| 0 <= k < |errors| && ParentOrRoot(pm, errors[k]) != p0;
      var q := ParentOrRoot(pm, errors[k]);
      assert q in parents;
      assert {p0, q} <= parents;
      assert |{p0, q}| == 2;
    }
    if |parents| == 1 {
      var x :| x in parents;
      assert |parents - {x}| == 0;
      assert parents - {x} == {};
      assert parents == {x};
    }
  }

  /** get_common_ancestor: collects the set of parents in a loop, then answers from its size. */
  method GetCommonAncestor(pm: map<string, string>, errors: seq<string>) returns (r: string)
    ensures r == CommonAncestor(pm, errors)
  {
    if errors == [] {
      return RootName;
    }
    var parents: set<string> := {};
    for i := 0 to |errors|
      invariant parents == set k | 0 <= k < i :: ParentOrRoot(pm, errors[k])
    {
      parents := parents + {ParentOrRoot(pm, errors[i])};
    }
    OneParentIffShared(pm, errors, parents);
    if |parents| == 1 {
      r :| r in parents;
    } else {
      r := RootName;
    }
  }

  /** The answer depends only on which errors are listed, not on their order or repetition. */
  lemma CommonAncestorIgnoresOrder(pm: map<string, string>, a: seq<string>, b: seq<string>)
    requires forall x :: x in a <==> x in b
    ensures CommonAncestor(pm, a) == CommonAncestor(pm, b)
  {
    if b != [] {
      assert b[0] in a;
    }
    if a != [] {
      assert a[0] in b;
      if SharedParent(pm, a) {
        forall k | 0 <= k < |b| ensures ParentOrRoot(pm, b[k]) == ParentOrRoot(pm, b[0]) {
          assert b[k] in a;
        }
      }
      if SharedParent(pm, b) {
        forall k | 0 <= k < |a| ensures ParentOrRoot(pm, a[k]) == ParentOrRoot(pm, a[0]) {
          assert a[k] in b;
        }
      }
    }
  }

  /** When "Root" is a key, the answer is always a key: either "Root" or a parent from the map. */
  lemma AncestorIsKeyOf(tax: seq<(string, seq<string>)>, errors: seq<string>)
    requires IsKey(tax, RootName)
    ensures IsKey(tax, CommonAncestor(ParentMapOf(tax), errors))
  {
    if errors != [] && errors[0] in ParentMapOf(tax) {
      ParentMapSound(tax, errors[0]);
    }
  }

  /** With PARENT_MAP, the answer is always a key of the taxonomy. */
  lemma CommonAncestorIsKey(errors: seq<string>)
    ensures IsKey(ErrorTaxonomy, CommonAncestor(ParentMap(), errors))
  {
    RootHasNoParent();
    AncestorIsKeyOf(ErrorTaxonomy, errors);
  }
}
