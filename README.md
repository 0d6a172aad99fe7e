# Debugging tutor core, modelled in Dafny

The tutor is a small debugging coach. A student pastes broken Python code. The tutor then:

- tags the code's structure (loops, conditionals, functions, classes, direct recursion, or a
  syntax error);
- finds the most similar stored buggy snippet, adjusting the similarity score by those tags;
- names the error family from a fixed error taxonomy;
- offers warm-up snippets of the same error type;
- judges the student's fix and awards skill points.

A five-question calibration quiz seeds a new user's skill profile. The store keeps users, one
five-skill row per user, and an attempt log. Progress reports rebuild the skill history from
the successful attempts.

The model has one module per concern.

| module | file | what it holds |
|---|---|---|
| `Taxonomy` | `taxonomy.dfy` | the error tree, the parent map built from it by a loop, and the nearest-common-ancestor rule |
| `AstAnalyzer` | `ast_analyzer.dfy` | an abstract syntax tree, its pre-order walk, and the tagging loops |
| `Retriever` | `retriever.dfy` | the snippet corpus, the index and the error-type grouping built by the constructor, the score adjustment, the stable ranking, the threshold and the warm-ups, and the `CodeRetriever` class with its lazy asset loading |
| `Database` | `database.dfy` | the three tables as sequences held by the `Store` class, with their queries as functions and their writes as methods |
| `Analytics` | `analytics.dfy` | the weakest-skill recommendation and the history rebuild loop |
| `UiLogic` | `ui_logic.dfy` | the player profile, the topic-to-skill map, the difficulty lock, the judge's verdict, the calibration quiz as a class, and the rewards and skill merge after a fix |
| `Skills` | `skills.dfy` | the five-skill vector shared by the store, the reports and the interface |
| `StableSort`, `Tables`, `Strings`, `Wrappers` | | Python's stable descending `list.sort`, first-maximum and first-minimum selection, SQL-style row filters, and Python's string operations |

Things the program gets from outside are inputs to the model:

- the sentence-encoder similarity scores are a sequence of reals;
- Python's parser is a `ParseResult` (a tree, a syntax error with message and line, or another
  exception);
- the judge's reply is a `Reply` (the returned text, or a failed call);
- the clock is an integer timestamp.

Each imperative routine is a method proved against a specification function. Lemmas then
prove the promised properties about that function.

## Model

| member | source | states |
|---|---|---|
| `Taxonomy.AddChildren` | taxonomy.py:16-17 | the inner loop adds each child of one key to the parent map, mapped to that key; later children override earlier entries |
| `Taxonomy.BuildParentMap` | taxonomy.py:14-17 | the nested loop yields exactly `ParentMapOf(tax)`, the union of each key's child map taken in key order |
| `Taxonomy.ParentMapSnoc` | taxonomy.py:15-17 | one more key in the outer loop extends the parent map by that key's child map |
| `Taxonomy.ParentOfChild` | taxonomy.py:1-17 | when every child is listed once, each listed child maps to the key whose list contains it |
| `Taxonomy.ParentMapSound` | taxonomy.py:14-17 | every entry of the parent map comes from a key whose list contains the child |
| `Taxonomy.NotAChild` | taxonomy.py:14-17 | a name that is in no list has no parent entry |
| `Taxonomy.ErrorTaxonomyJoined` | taxonomy.py:1-12 | the children of the eight keys, taken in order, are the eight literal lists joined |
| `Taxonomy.ErrorTaxonomyHasUniqueChildren` | taxonomy.py:1-12 | no child name appears twice across `ERROR_TAXONOMY`, so `PARENT_MAP` is well defined |
| `Taxonomy.RootHasNoParent` | taxonomy.py:1-17 | "Root" is a key of the taxonomy and has no entry in `PARENT_MAP` |
| `Taxonomy.OneParentIffShared` | taxonomy.py:27-34 | the collected parent set has one element exactly when every error has the first error's parent, and that element is then the shared parent |
| `Taxonomy.GetCommonAncestor` | taxonomy.py:20-34 | the set-collecting loop answers `CommonAncestor`: "Root" for an empty list, the shared parent when all errors share one (a name without a parent counts as a child of "Root"), and "Root" otherwise |
| `Taxonomy.CommonAncestorIgnoresOrder` | taxonomy.py:27-29 | two error lists with the same members, in any order or multiplicity, get the same answer |
| `Taxonomy.AncestorIsKeyOf` | taxonomy.py:29-34 | for any taxonomy that has "Root" as a key, the answer is always a key |
| `Taxonomy.CommonAncestorIsKey` | taxonomy.py:1-34 | with `PARENT_MAP`, the answer for every error list is a key of `ERROR_TAXONOMY` |
| `AstAnalyzer.Walk` | ast_analyzer.py:14 | the pre-order walk of a node starts with the node itself |
| `AstAnalyzer.WalkIsSomewhere` | ast_analyzer.py:14-22 | some node of `ast.walk(n)` satisfies a test exactly when some node of the tree satisfies it |
| `AstAnalyzer.WalkAllIsSomewhere` | ast_analyzer.py:14-22 | the same holds for the walk of a list of subtrees |
| `AstAnalyzer.WalkFindsSnoc` | ast_analyzer.py:14 | a test finds a node in a walk extended by one node exactly when it finds one in the walk or the new node passes |
| `AstAnalyzer.TagKinds` | ast_analyzer.py:14-22 | the first loop's tag set is exactly: "Loops" iff some For or While node, "Conditionals" iff some If, "Functions" iff some FunctionDef, "Classes" iff some ClassDef |
| `AstAnalyzer.CallsByName` | ast_analyzer.py:29-33 | the inner loop finds a call exactly when the definition's subtree holds a call to the bare name |
| `AstAnalyzer.FindSelfCall` | ast_analyzer.py:26-33 | the recursion loop sets the tag exactly when some function definition's subtree calls that definition's own name |
| `AstAnalyzer.AnalyzeCodeStructure` | ast_analyzer.py:4-39 | the result is `Features(p)`: the kind tags plus "Recursion" for a parsed tree, `{Syntax}` for a syntax error, and the empty set for any other exception |
| `AstAnalyzer.RecursionNeedsFunctionTag` | ast_analyzer.py:25-33 | without a function definition there is no self-calling definition, so skipping the second walk loses nothing |
| `AstAnalyzer.RecursionImpliesFunctions` | ast_analyzer.py:25-33 | a tree with a self-calling definition has a function definition |
| `AstAnalyzer.SyntaxTagIffSyntaxError` | ast_analyzer.py:35-38 | "Syntax" is tagged exactly on a syntax error; that result is exactly `{Syntax}`; any other exception gives the empty set |
| `AstAnalyzer.FeaturesShape` | ast_analyzer.py:25-33 | "Recursion" in the tags implies "Functions" in the tags |
| `Retriever.IndexByIdCovers` | retriever.py:22 | every snippet's id is a key of `snippet_map` |
| `Retriever.IndexByIdSound` | retriever.py:22 | every `snippet_map` entry is a snippet of the corpus filed under its own id |
| `Retriever.IndexByIdLastWins` | retriever.py:22 | with repeated ids, the last snippet carrying the id is the one kept |
| `Retriever.GroupingSnoc` | retriever.py:25-29 | adding one snippet to its error type's list (created when missing) keeps `by_error_type` a grouping of the snippets read so far |
| `Retriever.GroupingStep` | retriever.py:25-29 | the same, for the `i`-th step of the constructor's loop |
| `Retriever.AddSnippet` | retriever.py:26-29 | one loop step appends the snippet to the list of its error type, "Unknown" when it has none |
| `Retriever.GroupByErrorType` | retriever.py:24-29 | `by_error_type` partitions the snippets: each key's list is exactly the snippets of that error type, in file order, and every key has a snippet |
| `Retriever.Adjust` | retriever.py:93-101 | the adjusted score stays within -0.6 and +0.5 of the raw score; it rises exactly when the query is a syntax error and the topic mentions "Syntax", and then by exactly 0.5; it falls exactly when a syntax-error query meets a non-syntax topic (by exactly 0.2), or a parsing query meets a topic about Loops or Recursion that the query lacks (by exactly 0.6) |
| `Retriever.AdjustMonotone` | retriever.py:93-101 | the adjustment is a shift that depends only on the tags and the topic, so it preserves the order of raw scores |
| `Retriever.RankedFacts` | retriever.py:85-103 | each ranked entry comes from an embedding row whose id is in `snippet_map`; every such row yields an entry; nothing is ranked exactly when no row resolves |
| `Retriever.Warmups` | retriever.py:133-136 | one to five warm-ups: either the top match alone, or snippets of the error type other than the top match; the top match alone exactly when it has no sibling; otherwise exactly the first five siblings (or all of them when fewer) in corpus order |
| `Retriever.LowConfidenceIffBelowThreshold` | retriever.py:107-128 | the query is turned away as low-confidence exactly when no ranked score reaches the threshold (0.40 for a syntax error, 0.60 otherwise) |
| `Retriever.SuccessFacts` | retriever.py:116-144 | on success, the match is a ranked entry with a maximal score that reaches the threshold, the concept is a taxonomy key, and every warm-up has the match's error type |
| `Retriever.WarmupsShareErrorType` | retriever.py:133-136 | when `by_error_type` groups the corpus, every warm-up has the requested error type |
| `Retriever.CodeRetriever.constructor` | retriever.py:12-40 | with both data files, the ids, the id index and the error-type grouping are built from them; without them all three are empty; the model and embeddings are not loaded |
| `Retriever.CodeRetriever.EnsureHeavyAssetsLoaded` | retriever.py:42-59 | the model loads only if it was absent and the load succeeds; the embeddings load only with a fresh model and an existing embeddings file; the tables are unchanged |
| `Retriever.CodeRetriever.RankSnippets` | retriever.py:85-103 | the scoring loop skips rows whose id is unknown and yields one adjusted entry per other row, in row order |
| `Retriever.CodeRetriever.Diagnose` | retriever.py:119-144 | the verdict on the best entry: below the threshold, low-confidence; without an error type, the `KeyError`; otherwise success with the warm-ups and the common ancestor of the error type |
| `Retriever.CodeRetriever.Match` | retriever.py:85-144 | sorting the ranked entries and taking the head gives the verdict on the first entry with the largest adjusted score, or "No matches found." when nothing is ranked |
| `Retriever.CodeRetriever.FindSimilar` | retriever.py:61-144 | without a loaded model and embeddings, the "System Error" response; otherwise the `Match` verdict with the query's tags |
| `Database.HashPassInjective` | database.py:60-61 | distinct passwords get distinct hashes |
| `Database.Login` | database.py:86-102 | None exactly when no user has this name and this password's hash; otherwise the id, name and display name of such a user |
| `Database.LoginAfterRegister` | database.py:64-102 | after a fresh registration, logging in succeeds exactly with the registered password and returns the new user |
| `Database.GetUserSkills` | database.py:120-137 | None exactly when the user has no skill row; otherwise the five skills of one of the user's rows |
| `Database.GetUserStats` | database.py:159-165 | total is the number of log positions holding an attempt of the user, success the number holding a successful one; success <= total <= number of attempts; each is 0 exactly when no attempt matches |
| `Database.UserAttemptPositions` | database.py:162-163 | the two `.count()` queries count the positions of the user's attempts and of the user's successful attempts |
| `Database.GetUserProgressData` | database.py:240-255 | one entry per successful attempt of the user, each carrying that attempt's timestamp, session and rewards |
| `Database.ProgressDataInOrder` | database.py:244-253 | the successful attempt at log position `j` is the entry numbered by the user's successes before `j`; on a time-ordered log (every valid store) the entries are in ascending timestamp order |
| `Database.CollectSummaries` | database.py:201-216 | the session loop appends one summary per id that is not "unknown" and has attempts, in id order |
| `Database.GetUserSessions` | database.py:196-220 | the result is sorted by start time, newest first; it is a permutation of the per-session summaries; sessions with equal start times keep their first-appearance order; no two entries share a session id (the "unique sessions" of database.py:197) |
| `Database.SummariesUnique` | database.py:199-216 | over a duplicate-free id list, no two summaries carry the same session id |
| `StableSort.PermutationKeepsDistinctKeys` | database.py:219 | reordering a list whose keys are distinct, as the sort does, keeps them distinct |
| `Database.SummariesAreSessions` | database.py:202-216 | each summary is for a listed id other than "unknown"; it has the first attempt's timestamp and code; it is solved iff some attempt in the session succeeded; its count is all attempts with that id, of any user |
| `Database.SummariesPrefix` | database.py:201-216 | summaries already appended are not changed by later ids |
| `Database.LastIdSummarised` | database.py:203-216 | when the last listed id is not "unknown" and has attempts, the loop appends exactly one summary for it, and that summary comes last |
| `Database.SessionsAreSummarised` | database.py:199-216 | every listed id other than "unknown" that has attempts has a summary |
| `Database.UserSessionIdsFacts` | database.py:199 | the distinct ids are duplicate-free and are exactly the session ids of the user's attempts |
| `Database.Store.constructor` | database.py:13-51 | the three tables start empty |
| `Database.Store.Register` | database.py:64-83 | a taken username gives (False, "Username already exists.") and no change; otherwise (True, "Registration successful!"), one user with the next id and the password's hash, and one all-zero skill row for that id |
| `Database.Store.LogAttempt` | database.py:105-117 | exactly one attempt is appended; the session id defaults to "unknown"; missing rewards are stored as the empty map; the other tables are unchanged |
| `Database.Store.UpdateUserSkills` | database.py:140-156 | only the user's first skill row changes, and only in the skills whose keys the update holds; nothing changes when the user has no row |
| `Database.UpdateThenRead` | database.py:120-156 | after an update, each skill reads back as the update's value when present and as before otherwise |
| `Analytics.RecommendStudyTopic` | analytics.py:6-15 | None exactly when the user has no skills; otherwise the first skill, in the store's key order, with the minimal value |
| `Analytics.NumberingNamesSessions` | analytics.py:30-37 | the sessions given a label are exactly those among the entries read |
| `Analytics.NumberingBounded` | analytics.py:30-37 | every label number lies between 1 and the session counter |
| `Analytics.NumberingInjective` | analytics.py:30-37 | distinct sessions get distinct labels |
| `Analytics.NumberingStable` | analytics.py:35-37 | a session keeps its label once it has one |
| `Analytics.Tabulate` | analytics.py:24-47 | the helper that lists the rows has the requested length |
| `Analytics.TabulateIndex` | analytics.py:24-47 | its `k`-th row is the row function applied to `k` |
| `Analytics.HistoryStep` | analytics.py:33-47 | one loop step advances the numbering and the running scores by one entry and forms that entry's snapshot |
| `Analytics.HistoryRowsSnoc` | analytics.py:44-47 | appending the snapshot extends the history by the entry's row |
| `Analytics.TabulatedHistory` | analytics.py:24-47 | the rows built by the loop form the history of the entries |
| `Analytics.BuildHistory` | analytics.py:20-47 | None exactly for no progress data; otherwise a Start row of zeros followed by exactly one snapshot per entry |
| `Analytics.LabelsNameSessions` | analytics.py:30-37 | two entries get the same label exactly when they belong to the same session |
| `Analytics.SessionNumbersCount` | analytics.py:33-37 | the first entry is "S1"; a first-seen session takes the next number and a repeated one reuses its number |
| `Analytics.ScoresGrowStep` | analytics.py:39-42 | with non-negative rewards, one entry lowers no skill |
| `Analytics.ScoresGrow` | analytics.py:39-47 | with non-negative rewards, every later snapshot is componentwise at least every earlier one |
| `Analytics.ScoresMonotone` | analytics.py:39-47 | with non-negative rewards, each skill's value does not decrease along the history |
| `Analytics.HistoryEndsWithTotals` | analytics.py:39-47 | the last snapshot holds the total of all rewards read |
| `UiLogic.RankIndex` | ui_logic.py:141-150 | the rank is the number of bounds 5, 10, 20, 40 that the best value reaches |
| `UiLogic.RankIndexMonotone` | ui_logic.py:141-150 | a larger best value never gives a lower rank |
| `UiLogic.PlayerProfile` | ui_logic.py:129-155 | no skills give level 0, "Novice", 0 XP; otherwise the XP is the sum over 5, the level its integer part, and the title the first maximal skill with its rank name |
| `UiLogic.RequiredSkillForTopic` | ui_logic.py:158-168 | in priority order, a case-insensitive "loop" gives Loops, "recursion" Recursion, "list"/"dict"/"class" Data_Structures, "syntax" Syntax, and anything else Logic |
| `UiLogic.RequiredSkillIgnoresCase` | ui_logic.py:158-159 | upper- or lower-casing the topic does not change the skill |
| `UiLogic.IsProblemLocked` | ui_logic.py:171-188 | locked exactly when Intermediate with the required skill below 5.0, or Advanced with it below 10.0; a missing skill counts as 0.0, and Novice, missing or other difficulties are open |
| `UiLogic.UnlockIsMonotone` | ui_logic.py:171-188 | raising the required skill never locks an open problem |
| `UiLogic.CalibrationNeeded` | ui_logic.py:363-367 | needed without a skill row, and otherwise exactly when the skills sum to zero |
| `UiLogic.CalibrationNeededIffUntrained` | ui_logic.py:363-367 | with non-negative skills, needed exactly when every skill is zero |
| `UiLogic.ParseVerdict` | ui_logic.py:462-466 | passes exactly when the upper-cased text starts with "YES"; the message is the stripped text after the first colon, or "Good job!" or "Not quite." when there is no colon |
| `UiLogic.AiJudge` | ui_logic.py:422-468 | a fix with a syntax error fails with "Syntax Error: <msg> at line <n>"; any other parser exception propagates; with a parsing fix and no Gemini the result is "Offline Mode."; a failed Gemini call fails with "AI Error: <error>"; a reply is judged by the verdict parsed from its stripped text |
| `UiLogic.JudgePassesIffYes` | ui_logic.py:422-468 | a fix passes exactly when it parses, Gemini is available, and the reply starts with YES in any case |
| `UiLogic.CalibrationRewardsAreSkillPoints` | ui_logic.py:15-51 | every calibration reward names each of its skills once, with a positive amount |
| `UiLogic.Multiplier` | ui_logic.py:625 | the multiplier lies in [0.5, 1.0] and is 1.0 on the first try |
| `UiLogic.MultiplierMonotone` | ui_logic.py:625 | more wrong attempts never raise the multiplier, and from two on it is 0.5 |
| `UiLogic.AwardedKeys` | ui_logic.py:626-628 | after the award, the score's keys are its old keys plus the reward's keys |
| `UiLogic.AwardedKeepsOthers` | ui_logic.py:626-628 | a score key outside the reward keeps its value |
| `UiLogic.AwardedUntouched` | ui_logic.py:626-628 | a skill outside the reward reads the same, with 0 for missing |
| `UiLogic.AwardedGains` | ui_logic.py:626-628 | each reward skill gains its amount times the multiplier, over its old value or 0 |
| `UiLogic.AwardedKeepsScoreValid` | ui_logic.py:626-628 | non-negative points of known skills stay non-negative points of known skills |
| `UiLogic.AwardPoints` | ui_logic.py:626-628 | the update loop over the reward items computes `Awarded` |
| `UiLogic.CalibrationQuiz.constructor` | ui_logic.py:344-350 | the quiz starts at question 0 with an empty score, no attempts, status active, and no feedback |
| `UiLogic.CalibrationQuiz.LivesLeft` | ui_logic.py:600-602 | lives left plus attempts is always 3, so at most 3 hearts; no heart is left exactly when the quiz failed for lack of lives (ui_logic.py:632-635) |
| `UiLogic.CalibrationQuiz.CheckAnswer` | ui_logic.py:618-641 | only an active question reacts; a pass sets status success, adds the scaled reward, and shows the truncated percentage; a miss costs a life, fails the question exactly when three are spent, and shows the hint |
| `UiLogic.CalibrationQuiz.Advance` | ui_logic.py:643-662 | Next (offered in success or failed) and Skip (offered while active) move to the next question with attempts 0, status active, and no feedback; otherwise nothing changes |
| `UiLogic.FinishCalibration` | ui_logic.py:573-574 | a completed quiz writes its score into the user's skill row, changing only the scored skills |
| `UiLogic.SkipCalibration` | ui_logic.py:568-571 | skipping writes Syntax 1.0 and Logic 1.0 into the user's skill row and changes no other skill |
| `UiLogic.FallbackRewards` | ui_logic.py:1078-1083 | Logic 0.5, plus Loops 1.0, Recursion 1.5, Syntax 1.0 and Data_Structures 1.0 exactly when the detected concept mentions the corresponding words |
| `UiLogic.FixRewards` | ui_logic.py:1067-1083 | nothing for a failed fix; for a passed one, the match's rewards when non-empty, otherwise the fallback for the detected concept ("Logic" without an analysis) |
| `UiLogic.SubmitFix` | ui_logic.py:1059-1100 | an analysis without a top match raises before anything is judged or logged, and then nothing in the store changes; otherwise it logs exactly one attempt with the rewards; a failed fix changes no skill; a passed fix leaves each skill at its old value plus the reward |
| `UiLogic.MergeIsAddition` | ui_logic.py:1098-1100 | writing back the merged dictionary sets every skill to its sum with the reward |
| `Skills.SkillNamesAreTheSkills` | database.py:129-135 | the skill names are exactly the five keys of the store's skill dictionary |
| `Skills.SkillVector.Set` | analytics.py:41-42 | setting one skill changes that skill and no other |
| `Skills.SkillVector.Items` | database.py:129-135 | the items are the five skills in the dictionary's key order, with their values |
| `Skills.SkillVector.AsMap` | database.py:129-135 | the dictionary has exactly the five skill keys, with their values |
| `Skills.WithUpdates` | database.py:148-153 | each skill takes the update's value when the key is present and keeps its value otherwise |
| `Skills.AddRewards` | ui_logic.py:1099 | each skill gains the reward for it, or 0 |
| `Skills.AddRewardsNeverLowers` | analytics.py:39-42 | non-negative rewards never lower a skill |
| `Skills.AddRewardsGrows` | analytics.py:39-42 | non-negative rewards give a componentwise larger vector |
| `Skills.AccumulateRewards` | analytics.py:40-42 | the per-skill update loop over the rewards computes `AddRewards` |
| `Skills.SumOfItemsIsTotal` | ui_logic.py:133 | the sum of the dictionary's values is the sum of the five skills |
| `Skills.SumNonNegative` | ui_logic.py:133 | a sum of non-negative values is non-negative |
| `Skills.SkillVectorExt` | database.py:129-135 | two vectors that agree on all five skills are equal |
| `Skills.Truncate` | ui_logic.py:134 | Python's `int()` on a float truncates toward zero |
| `StableSort.SortDesc` | retriever.py:105 | Python's stable `sort(reverse=True)`: the result is non-increasing in the key, a permutation of its input, and keeps input order among equal keys |
| `StableSort.InsertDesc` | database.py:219 | inserting into a sorted list keeps it sorted, adds exactly one element, and places it after the elements with the same key |
| `StableSort.SortedHeadIsFirstMax` | retriever.py:116-117 | the head of the stably sorted list is the first element of the input with the largest key |
| `StableSort.FirstMax` | ui_logic.py:138 | Python's `max` with a key: an index of a maximal element, with no maximal element before it |
| `StableSort.FirstMin` | analytics.py:14 | Python's `min` with a key: an index of a minimal element, with no minimal element before it |
| `Tables.FirstWhere` | database.py:123 | a query's `.first()`: the first matching row, or None exactly when no row matches |
| `Tables.FilterWhere` | database.py:204 | a query's `.all()`: no longer than the table, holding only matching rows and every matching row |
| `Tables.FilterWhereInOrder` | database.py:244-245 | the result has one row per match, and the matching row at position `j` sits at the index counting the matches before `j`, so table order is kept |
| `Tables.FilterKeepsOrder` | database.py:244-245 | filtering a table ordered by a key gives rows ordered by that key |
| `Tables.CountWhere` | database.py:162-163 | a query's `.count()`: never more than the rows, and zero exactly when no row matches |
| `Tables.CountIsMatchingPositions` | database.py:162-163 | `.count()` is the number of positions holding a matching row |
| `Tables.Distinct` | database.py:199 | `.distinct()`: the same members, without duplicates |
| `Strings.Lower` | ui_logic.py:159 | `str.lower()` on ASCII letters, preserving length |
| `Strings.Upper` | ui_logic.py:464 | `str.upper()` on ASCII letters, preserving length |
| `Strings.LowerForgetsCase` | ui_logic.py:159 | lower-casing an upper-cased or lower-cased string gives the same lower-case string |
| `Strings.Strip` | ui_logic.py:462 | `str.strip()`: the slice of the input left after removing every leading and trailing white-space character (the characters `str.isspace()` accepts, ASCII and Unicode); it neither starts nor ends with white space |
| `Strings.AfterFirstColon` | ui_logic.py:465-466 | `text.split(":", 1)[1]`: the text after the first colon |
| `Strings.NatToString` | ui_logic.py:426 | the decimal rendering of the line number: digits only, never empty, no leading zero, and its digits read back as the number |

## Left out

- Rendering: Streamlit layout, CSS, buttons, `st.rerun`/`st.stop`, balloons and chat are not modelled. Each button press is a method call.
- Plotting: the spider chart and the progress line chart (pandas and plotly) are not modelled. `Analytics.BuildHistory` stops at the rows the chart is drawn from.
- Gemini: the prompts, the key rotation and `generate_content_with_rotation` are network calls to a foreign service. The reply is an input to `UiLogic.AiJudge`.
- Embeddings: the sentence encoder, `util.cos_sim` and loading `embeddings.npy` are foreign numerics. The similarity scores are an input sequence. Whether loading succeeds is a pair of booleans.
- Parsing: Python's `ast.parse` is replaced by the abstract `ParseResult` and `Node` datatypes. `ast.walk` is modelled as a pre-order walk. Its exact breadth-first order does not matter, because only the set of visited nodes is used.
- Persistence: SQLAlchemy sessions and commits are not modelled. The tables are sequences in insertion order. `ORDER BY timestamp` is taken as insertion order, which holds because `Database.Store.LogAttempt` requires a clock that never runs backwards. SQL `DISTINCT` is taken to list ids in order of first appearance.
- Database.HashPassInjective: SHA-256 is replaced by an injective stand-in. Only "a different password gives a different hash" is relied on.
- JSON: `rewards_json` is stored decoded, as a map. `json.dumps(rewards) if rewards else "{}"` is then the same map, or the empty map for None.
- Randomness: `random.sample`, `random.randint` and `uuid.uuid4` in training and warm-up selection are not modelled. The session id is an input.
- `get_user_history`, `get_last_unfinished` and `get_session_history` are not modelled. They are not used by the modelled routines.
- UiLogic.PlayerProfile: the XP is the exact average. The display rounding `round(avg_xp, 1)` is not modelled. The empty profile's integer 0 is written as 0.0.
- Retriever.CodeRetriever.Match: the success confidence is the unrounded best score. The display rounding `round(confidence_score, 2)` is not modelled.
- Retriever.CodeRetriever.FindSimilar: the unused `top_k` parameter is not modelled.
- Retriever.CodeRetriever.FindSimilar: it requires no more scores than embedding ids. The source raises `IndexError` in that case.
- Strings.Lower: lower-casing covers ASCII letters only. Python's full Unicode case mapping is not modelled.
- Strings.Upper: upper-casing covers ASCII letters only, for the same reason. A reply starting with a non-ASCII letter whose Python upper case is ASCII (such as U+0131, whose upper case is "I") is not modelled.
- UiLogic.SubmitFix: it requires the user to have a skill row whenever the fix passes and the predicted-error lookup does not raise, including when there is no analysis at all. Without a row the source crashes on `None` at ui_logic.py:1097-1099, and that crash is not modelled.
- UiLogic.SubmitFix: the `predicted_error` argument `ai_judge` passes into the prompt is not modelled; the judge's verdict is a parameter. The `TypeError` of ui_logic.py:1062-1063 on an analysis whose `top_match` is None is modelled as the `raised` outcome.
- Floating point: skill levels, rewards, multipliers and similarity scores are exact `real`s, whereas the source computes with IEEE 754 binary64 floats. A reward that binary64 cannot hold exactly (such as 0.1 read from a snippet's `skill_rewards`) rounds at every addition, so a long sum in the source can drift from the model's, and a lock or threshold comparison that sits right at its bound can then go the other way. The skill arithmetic agrees with the source while every amount and partial sum is a dyadic fraction binary64 holds exactly, as the skill constants (0.25, 0.5, 1.0, 1.5, 2.0) are. The retriever's penalties 0.2 and 0.6 are not, so an adjusted score within rounding distance of a confidence threshold may compare differently in the source.
- Skills.AccumulateRewards: the reward dictionary's iteration order is not fixed. The loop is proved correct for any order it picks.
- Logging: the `print` statements of the retriever and the store are not modelled.
