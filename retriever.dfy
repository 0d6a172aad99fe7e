/** The snippet retriever: it indexes the snippet corpus, ranks the snippets against a query by
    their similarity score adjusted for the query's structural tags, and turns the best match
    into a diagnosis. The similarity scores themselves (the sentence encoder and the cosine
    similarity against the stored embeddings) are inputs. */
module Retriever {
  import opened Wrappers
  import opened Strings
  import opened Tables
  import opened StableSort
  import opened AstAnalyzer
  import Taxonomy

  /** A stored buggy snippet. The optional fields are `None` when the record lacks the key; a
      missing `skill_rewards` is the empty map. */
  datatype Snippet = Snippet(
    id: string, topic: Option<string>, errorType: Option<string>, difficulty: Option<string>,
    code: string, skillRewards: map<string, real>)

  /** `snippet.get('topic', '')` */
  function TopicOf(s: Snippet): string { s.topic.GetOr("") }

  /** `s.get('error_type', 'Unknown')` */
  function ErrorTypeOf(s: Snippet): string { s.errorType.GetOr("Unknown") }

  /** The two data files: the embedding row order (`snippet_ids.json`) and the snippet records
      (`error_database.json`). */
  datatype Corpus = Corpus(ids: seq<string>, snippets: seq<Snippet>)

  // ---------------------------------------------------------------- indexing

  /** `{s['id']: s for s in snippets}` */
  function IndexById(s: seq<Snippet>): map<string, Snippet> {
    if s == [] then map[]
    else IndexById(s[..|s| - 1])[s[|s| - 1].id := s[|s| - 1]]
  }

  /** Every id of the corpus is a key. */
  lemma {:induction false} IndexByIdCovers(s: seq<Snippet>, i: nat)
    requires i < |s|
    ensures s[i].id in IndexById(s)
    decreases |s|
  {
    var n := |s| - 1;
    if i < n {
      assert s[..n][i] == s[i];
      IndexByIdCovers(s[..n], i);
    }
  }

  /** Every key maps to a record of the corpus with that id. */
  lemma {:induction false} IndexByIdSound(s: seq<Snippet>, k: string)
    requires k in IndexById(s)
    ensures IndexById(s)[k].id == k && IndexById(s)[k] in s
    decreases |s|
  {
    var n := |s| - 1;
    var pre := s[..n];
    assert IndexById(s) == IndexById(pre)[s[n].id := s[n]];
    if k != s[n].id {
      IndexByIdSound(pre, k);
      assert s == pre + [s[n]];
    }
  }

  /** A repeated id keeps its last record. */
  lemma {:induction false} IndexByIdLastWins(s: seq<Snippet>, i: nat)
    requires i < |s|
    requires forall j :: i < j < |s| ==> s[j].id != s[i].id
    ensures s[i].id in IndexById(s) && IndexById(s)[s[i].id] == s[i]
    decreases |s|
  {
    var n := |s| - 1;
    if i < n {
      var pre := s[..n];
      assert pre[i] == s[i];
      IndexByIdLastWins(pre, i);
    }
  }

  function OfErrorType(e: string): Snippet -> bool {
    (s: Snippet) => ErrorTypeOf(s) == e
  }

  /** `g` groups `s` by error type: one key per error type that occurs, holding that type's
      snippets in corpus order. */
  ghost predicate IsGrouping(g: map<string, seq<Snippet>>, s: seq<Snippet>) {
    (forall e :: e in g <==> exists i :: 0 <= i < |s| && ErrorTypeOf(s[i]) == e) &&
    (forall e :: e in g ==> g[e] == FilterWhere(s, OfErrorType(e)))
  }

  /** The entry `s` lands in: appended to the list of its error type, created empty first. */
  function AddToGroup(g: map<string, seq<Snippet>>, s: Snippet): map<string, seq<Snippet>> {
    var e := ErrorTypeOf(s);
    g[e := (if e in g then g[e] else []) + [s]]
  }

  lemma GroupingSnoc(g: map<string, seq<Snippet>>, pre: seq<Snippet>, s: Snippet)
    requires IsGrouping(g, pre)
    ensures IsGrouping(AddToGroup(g, s), pre + [s])
  {
    var all := pre + [s];
    var g' := AddToGroup(g, s);
    assert all[..|all| - 1] == pre && all[|all| - 1] == s;
    forall e ensures e in g' <==> exists k :: 0 <= k < |all| && ErrorTypeOf(all[k]) == e {
      if e in g' && e != ErrorTypeOf(s) {
        var k :| 0 <= k < |pre| && ErrorTypeOf(pre[k]) == e;
        assert all[k] == pre[k];
      }
      if exists k :: 0 <= k < |all| && ErrorTypeOf(all[k]) == e {
        var k :| 0 <= k < |all| && ErrorTypeOf(all[k]) == e;
        if k < |pre| {
          assert pre[k] == all[k];
        }
      }
    }
    forall e | e in g' ensures g'[e] == FilterWhere(all, OfErrorType(e)) {
      if e == ErrorTypeOf(s) && e !in g {
        assert forall k :: 0 <= k < |pre| ==> !OfErrorType(e)(pre[k]);
        CountIsFilterLength(pre, OfErrorType(e));
      }
    }
  }

  lemma GroupingStep(g: map<string, seq<Snippet>>, snippets: seq<Snippet>, i: nat)
    requires i < |snippets| && IsGrouping(g, snippets[..i])
    ensures IsGrouping(AddToGroup(g, snippets[i]), snippets[..i + 1])
  {
    GroupingSnoc(g, snippets[..i], snippets[i]);
    assert snippets[..i + 1] == snippets[..i] + [snippets[i]];
  }

  /** One step of the grouping loop. */
  method AddSnippet(g: map<string, seq<Snippet>>, s: Snippet) returns (g': map<string, seq<Snippet>>)
    ensures g' == AddToGroup(g, s)
  {
    g' := g;
    var err := ErrorTypeOf(s);
    if err !in g' {
      g' := g'[err := []];
    }
    g' := g'[err := g'[err] + [s]];
  }

  /** The `by_error_type` loop of the constructor. */
  method GroupByErrorType(snippets: seq<Snippet>) returns (g: map<string, seq<Snippet>>)
    ensures IsGrouping(g, snippets)
  {
    g := map[];
    assert IsGrouping(g, []);
    assert snippets[..0] == [];
    for i := 0 to |snippets|
      invariant IsGrouping(g, snippets[..i])
    {
      GroupingStep(g, snippets, i);
      g := AddSnippet(g, snippets[i]);
    }
    assert snippets[..|snippets|] == snippets;
  }

  // ---------------------------------------------------------------- ranking

  const SyntaxBonus: real := 0.5
  const SyntaxMismatchPenalty: real := 0.2
  const ConceptMismatchPenalty: real := 0.6

  /** `config.CONFIDENCE_THRESHOLD` and `config.SYNTAX_THRESHOLD` */
  const ConfidenceThreshold: real := 0.60
  const SyntaxThreshold: real := 0.40

  function RequiredThreshold(syntax: bool): real {
    if syntax then SyntaxThreshold else ConfidenceThreshold
  }

  /** A snippet whose topic names a concept the query lacks is pushed down. */
  predicate ConceptMismatch(features: set<Tag>, topic: string) {
    (IsSubstring("Loops", topic) && Loops !in features) ||
    (IsSubstring("Recursion", topic) && Recursion !in features)
  }

  /** The structural adjustment of one raw similarity score. It raises the score exactly when
      the query fails to parse and the snippet's topic is about syntax. It lowers the score
      exactly when a failing query meets a non-syntax snippet, or a parsing query meets a
      snippet about a concept the query lacks. */
  function Adjust(score: real, features: set<Tag>, topic: string): (r: real)
    ensures score - ConceptMismatchPenalty <= r <= score + SyntaxBonus
    ensures r > score <==> Syntax in features && IsSubstring("Syntax", topic)
    ensures r < score <==>
      (Syntax in features && !IsSubstring("Syntax", topic)) ||
      (Syntax !in features && ConceptMismatch(features, topic))
    ensures r > score ==> r == score + SyntaxBonus
    ensures r < score ==>
      r == score - (if Syntax in features then SyntaxMismatchPenalty else ConceptMismatchPenalty)
  {
    if Syntax in features then
      if IsSubstring("Syntax", topic) then score + SyntaxBonus else score - SyntaxMismatchPenalty
    else if IsSubstring("Loops", topic) && Loops !in features then score - ConceptMismatchPenalty
    else if IsSubstring("Recursion", topic) && Recursion !in features then score - ConceptMismatchPenalty
    else score
  }

  /** Two snippets with the same topic keep the order of their raw scores. */
  lemma AdjustMonotone(a: real, b: real, features: set<Tag>, topic: string)
    requires a <= b
    ensures Adjust(a, features, topic) <= Adjust(b, features, topic)
    ensures Adjust(b, features, topic) - Adjust(a, features, topic) == b - a
  {
  }

  type Entry = (real, Snippet)

  function Score(e: Entry): real { e.0 }

  /** The ranked entry for embedding row `i`, when its id resolves to a snippet. */
  function EntryAt(ids: seq<string>, index: map<string, Snippet>, scores: seq<real>, features: set<Tag>, i: nat): Entry
    requires i < |scores| <= |ids| && ids[i] in index
  {
    (Adjust(scores[i], features, TopicOf(index[ids[i]])), index[ids[i]])
  }

  /** The unsorted `ranked_results`: one adjusted entry per row whose id resolves, in row order. */
  function Ranked(ids: seq<string>, index: map<string, Snippet>, scores: seq<real>, features: set<Tag>): seq<Entry>
    requires |scores| <= |ids|
  {
    if scores == [] then []
    else
      var n := |scores| - 1;
      Ranked(ids, index, scores[..n], features) +
        (if ids[n] in index then [EntryAt(ids, index, scores, features, n)] else [])
  }

  /** Every ranked entry comes from a row whose id resolves, every such row is ranked, and
      nothing is ranked exactly when no row resolves. */
  lemma {:induction false} RankedFacts(ids: seq<string>, index: map<string, Snippet>, scores: seq<real>, features: set<Tag>)
    requires |scores| <= |ids|
    ensures var r := Ranked(ids, index, scores, features);
      |r| <= |scores| &&
      (forall k :: 0 <= k < |r| ==>
        exists i :: 0 <= i < |scores| && ids[i] in index && r[k] == EntryAt(ids, index, scores, features, i)) &&
      (forall i :: 0 <= i < |scores| && ids[i] in index ==> EntryAt(ids, index, scores, features, i) in r) &&
      (r == [] <==> forall i :: 0 <= i < |scores| ==> ids[i] !in index)
    decreases |scores|
  {
    if scores != [] {
      var n := |scores| - 1;
      var pre := scores[..n];
      RankedFacts(ids, index, pre, features);
      assert forall i :: 0 <= i < n && ids[i] in index ==>
        EntryAt(ids, index, pre, features, i) == EntryAt(ids, index, scores, features, i) by {
        assert forall i :: 0 <= i < n ==> pre[i] == scores[i];
      }
    }
  }

  // ---------------------------------------------------------------- the diagnosis

  datatype Status = Error | LowConfidence

  /** The dictionary `find_similar` returns: a failure carries no match and no warm-ups; a
      success carries the match, its warm-ups, the concept and the confidence. `Raised` is
      the `KeyError` of a best match without an `error_type`. */
  datatype Response =
    | NoMatch(status: Status, concept: string, hint: string)
    | Success(top: Snippet, warmups: seq<Snippet>, concept: string, confidence: real)
    | Raised

  const GeneralDebugging: string := "General Debugging"
  const SystemError: Response :=
    NoMatch(Error, "System Error", "Database not initialized. Please run build_vector_db.py.")
  const NothingRanked: Response := NoMatch(LowConfidence, GeneralDebugging, "No matches found.")
  const BelowThreshold: Response :=
    NoMatch(LowConfidence, GeneralDebugging, "Your code doesn't match our known error patterns.")

  const MaxWarmups: nat := 5

  function GroupOf(groups: map<string, seq<Snippet>>, e: string): seq<Snippet> {
    if e in groups then groups[e] else []
  }

  function NotId(id: string): Snippet -> bool {
    (s: Snippet) => s.id != id
  }

  /** The warm-up list: the first five other snippets of the same error type, in corpus order,
      or the match itself when it has no sibling. */
  function Warmups(groups: map<string, seq<Snippet>>, top: Snippet, e: string): (w: seq<Snippet>)
    ensures 1 <= |w| <= MaxWarmups
    ensures w == [top] || forall k :: 0 <= k < |w| ==> w[k].id != top.id && w[k] in GroupOf(groups, e)
    ensures w == [top] <==> forall k :: 0 <= k < |GroupOf(groups, e)| ==> GroupOf(groups, e)[k].id == top.id
    ensures var siblings := FilterWhere(GroupOf(groups, e), NotId(top.id));
      w != [top] ==>
        |w| == (if |siblings| < MaxWarmups then |siblings| else MaxWarmups) && w == siblings[..|w|]
  {
    var siblings := FilterWhere(GroupOf(groups, e), NotId(top.id));
    if siblings == [] then [top]
    else siblings[..if |siblings| < MaxWarmups then |siblings| else MaxWarmups]
  }

  /** The verdict on the best entry: below the threshold it is turned away, otherwise its
      error type decides the warm-ups and the concept. */
  function Verdict(best: Entry, syntax: bool, groups: map<string, seq<Snippet>>): Response {
    if best.0 < RequiredThreshold(syntax) then BelowThreshold
    else match best.1.errorType
      case None => Raised
      case Some(e) => Success(best.1, Warmups(groups, best.1, e), Taxonomy.CommonAncestor(Taxonomy.ParentMap(), [e]), best.0)
  }

  /** The reference diagnosis, stated without sorting: the best entry is the first one, in row
      order, with the largest adjusted score. */
  function Expected(ranked: seq<Entry>, syntax: bool, groups: map<string, seq<Snippet>>): Response {
    if ranked == [] then NothingRanked
    else Verdict(ranked[FirstMax(ranked, Score)], syntax, groups)
  }

  /** The query is turned away exactly when no ranked score reaches the threshold. */
  lemma LowConfidenceIffBelowThreshold(ranked: seq<Entry>, syntax: bool, groups: map<string, seq<Snippet>>)
    ensures Expected(ranked, syntax, groups).NoMatch? <==>
      forall k :: 0 <= k < |ranked| ==> ranked[k].0 < RequiredThreshold(syntax)
  {
    if ranked != [] {
      var b := FirstMax(ranked, Score);
      assert Score(ranked[b]) == ranked[b].0;
      if ranked[b].0 < RequiredThreshold(syntax) {
        forall k | 0 <= k < |ranked| ensures ranked[k].0 < RequiredThreshold(syntax) {
          assert Score(ranked[k]) <= Score(ranked[b]);
        }
      }
    }
  }

  /** A success reports an entry of the ranking whose score is the largest one and reaches the
      threshold; its concept is a node of the error taxonomy, and when the groups are those of
      the corpus every warm-up shares the match's error type. */
  lemma SuccessFacts(ranked: seq<Entry>, syntax: bool, groups: map<string, seq<Snippet>>, snippets: seq<Snippet>)
    requires IsGrouping(groups, snippets)
    requires Expected(ranked, syntax, groups).Success?
    ensures var r := Expected(ranked, syntax, groups);
      (r.confidence, r.top) in ranked &&
      r.confidence >= RequiredThreshold(syntax) &&
      (forall k :: 0 <= k < |ranked| ==> ranked[k].0 <= r.confidence) &&
      Taxonomy.IsKey(Taxonomy.ErrorTaxonomy, r.concept) &&
      r.top.errorType.Some? &&
      (forall k :: 0 <= k < |r.warmups| ==> ErrorTypeOf(r.warmups[k]) == r.top.errorType.value)
  {
    var b := FirstMax(ranked, Score);
    var e := ranked[b].1.errorType.value;
    var r := Expected(ranked, syntax, groups);
    assert r.warmups == Warmups(groups, ranked[b].1, e);
    forall k | 0 <= k < |ranked| ensures ranked[k].0 <= r.confidence {
      assert Score(ranked[k]) <= Score(ranked[b]);
    }
    Taxonomy.CommonAncestorIsKey([e]);
    WarmupsShareErrorType(groups, snippets, ranked[b].1, e);
  }

  /** Over the corpus's groups, every warm-up of a match has the match's error type. */
  lemma WarmupsShareErrorType(groups: map<string, seq<Snippet>>, snippets: seq<Snippet>, top: Snippet, e: string)
    requires IsGrouping(groups, snippets) && top.errorType == Some(e)
    ensures forall k :: 0 <= k < |Warmups(groups, top, e)| ==> ErrorTypeOf(Warmups(groups, top, e)[k]) == e
  {
    var w := Warmups(groups, top, e);
    forall k | 0 <= k < |w| ensures ErrorTypeOf(w[k]) == e {
      if w != [top] {
        assert w[k] in GroupOf(groups, e);
        var j :| 0 <= j < |GroupOf(groups, e)| && GroupOf(groups, e)[j] == w[k];
        assert OfErrorType(e)(FilterWhere(snippets, OfErrorType(e))[j]);
      }
    }
  }

  // ---------------------------------------------------------------- the retriever object

  class CodeRetriever {
    var snippetIds: seq<string>
    var snippetMap: map<string, Snippet>
    var byErrorType: map<string, seq<Snippet>>
    /** `self.model is not None` and `self.tensor_embeddings is not None` */
    var modelLoaded: bool
    var embeddingsLoaded: bool
    /** The snippet records the tables were built from. */
    ghost var corpus: seq<Snippet>

    ghost predicate Valid()
      reads this
    {
      snippetMap == IndexById(corpus) &&
      IsGrouping(byErrorType, corpus) &&
      (embeddingsLoaded ==> modelLoaded)
    }

    /** Loads both data files, or starts empty when either is missing. The model and the
        embeddings are not loaded yet. */
    constructor (files: Option<Corpus>)
      ensures Valid()
      ensures files.None? ==> snippetIds == [] && snippetMap == map[] && byErrorType == map[]
      ensures files.Some? ==>
        snippetIds == files.value.ids &&
        snippetMap == IndexById(files.value.snippets) &&
        IsGrouping(byErrorType, files.value.snippets)
      ensures !modelLoaded && !embeddingsLoaded
    {
      match files {
        case None =>
          snippetIds := [];
          snippetMap := map[];
          byErrorType := map[];
          corpus := [];
        case Some(c) =>
          snippetIds := c.ids;
          snippetMap := IndexById(c.snippets);
          var groups := GroupByErrorType(c.snippets);
          byErrorType := groups;
          corpus := c.snippets;
      }
      modelLoaded := false;
      embeddingsLoaded := false;
    }

    /** Lazy loading. Only a retriever without a model tries again; once the model is loaded
        the embeddings are never retried, so a missing embeddings file stays missing. */
    method EnsureHeavyAssetsLoaded(modelLoads: bool, embeddingsLoad: bool)
      requires Valid()
      modifies this
      ensures Valid()
      ensures snippetIds == old(snippetIds) && snippetMap == old(snippetMap) && byErrorType == old(byErrorType)
      ensures corpus == old(corpus)
      ensures modelLoaded == (old(modelLoaded) || modelLoads)
      ensures embeddingsLoaded == (old(embeddingsLoaded) || (!old(modelLoaded) && modelLoads && embeddingsLoad))
    {
      if !modelLoaded {
        if modelLoads {
          modelLoaded := true;
          if embeddingsLoad {
            embeddingsLoaded := true;
          }
        }
      }
    }

    /** The scoring loop: one adjusted entry per embedding row whose id names a snippet. */
    method RankSnippets(features: set<Tag>, scores: seq<real>) returns (ranked: seq<Entry>)
      requires |scores| <= |snippetIds|
      ensures ranked == Ranked(snippetIds, snippetMap, scores, features)
    {
      ranked := [];
      for idx := 0 to |scores|
        invariant ranked == Ranked(snippetIds, snippetMap, scores[..idx], features)
      {
        assert scores[..idx + 1][..idx] == scores[..idx];
        var snippetId := snippetIds[idx];
        if snippetId in snippetMap {
          var snippet := snippetMap[snippetId];
          var finalScore := Adjust(scores[idx], features, TopicOf(snippet));
          ranked := ranked + [(finalScore, snippet)];
        }
      }
      assert scores[..|scores|] == scores;
    }

    /** The verdict on the head of the sorted ranking. */
    method Diagnose(best: Entry, syntax: bool) returns (resp: Response)
      ensures resp == Verdict(best, syntax, byErrorType)
    {
      var confidence := best.0;
      if confidence < RequiredThreshold(syntax) {
        return BelowThreshold;
      }
      var top := best.1;
      if top.errorType.None? {
        return Raised;
      }
      var errorType := top.errorType.value;
      var candidates := GroupOf(byErrorType, errorType);
      var siblings := FilterWhere(candidates, NotId(top.id));
      siblings := siblings[..if |siblings| < MaxWarmups then |siblings| else MaxWarmups];
      var warmups := if siblings != [] then siblings else [top];
      var concept := Taxonomy.GetCommonAncestor(Taxonomy.ParentMap(), [errorType]);
      resp := Success(top, warmups, concept, confidence);
    }

    /** Everything after the assets check: rank, sort, and read the verdict off the head. */
    method Match(features: set<Tag>, scores: seq<real>) returns (resp: Response)
      requires |scores| <= |snippetIds|
      ensures resp == Expected(Ranked(snippetIds, snippetMap, scores, features), Syntax in features, byErrorType)
    {
      var ranked := RankSnippets(features, scores);
      var sorted := SortDesc(ranked, Score);
      assert |sorted| == |multiset(sorted)| == |multiset(ranked)| == |ranked|;
      if sorted == [] {
        return NothingRanked;
      }
      SortedHeadIsFirstMax(sorted, ranked, Score);
      resp := Diagnose(sorted[0], Syntax in features);
    }

    /** `find_similar`: `parse` is what `ast.parse` makes of the query and `scores` its cosine
        similarity against each embedding row. */
    method FindSimilar(parse: ParseResult, scores: seq<real>, modelLoads: bool, embeddingsLoad: bool)
      returns (resp: Response)
      requires Valid()
      requires |scores| <= |snippetIds|
      modifies this
      ensures Valid()
      ensures snippetIds == old(snippetIds) && snippetMap == old(snippetMap) && byErrorType == old(byErrorType)
      ensures corpus == old(corpus)
      ensures modelLoaded == (old(modelLoaded) || modelLoads)
      ensures embeddingsLoaded == (old(embeddingsLoaded) || (!old(modelLoaded) && modelLoads && embeddingsLoad))
      ensures !embeddingsLoaded ==> resp == SystemError
      ensures embeddingsLoaded ==>
        resp == Expected(Ranked(snippetIds, snippetMap, scores, Features(parse)), parse.SyntaxError?, byErrorType)
    {
      EnsureHeavyAssetsLoaded(modelLoads, embeddingsLoad);
      if !modelLoaded || !embeddingsLoaded {
        return SystemError;
      }
      var features := AnalyzeCodeStructure(parse);
      SyntaxTagIffSyntaxError(parse);
      resp := Match(features, scores);
    }
  }
}
