/** The tutor's rules that live in the user interface: the player profile, the skill a topic
    trains, the difficulty lock, the reading of the judge's reply, the calibration quiz, and
    the rewards granted for a fix. Rendering is not modelled; the judge's reply and the parse
    of the submitted fix are inputs. */
module UiLogic {
  import opened Wrappers
  import opened Strings
  import opened Tables
  import opened Skills
  import opened StableSort
  import opened Database
  import Retriever
  import AstAnalyzer

  // ---------------------------------------------------------------- player profile

  datatype Profile = Profile(level: int, title: string, totalXp: real)

  const RankNames: seq<string> := ["Novice", "Apprentice", "Adept", "Master", "Grandmaster"]

  /** The best skill value at which each rank after Novice begins. */
  const RankBounds: seq<real> := [5.0, 10.0, 20.0, 40.0]

  /** The rank of a best skill value: the number of rank bounds it has reached. */
  function RankIndex(best: real): (i: nat)
    ensures i < |RankNames| && |RankBounds| == |RankNames| - 1
    ensures forall j :: 0 <= j < i ==> RankBounds[j] <= best
    ensures i < |RankBounds| ==> best < RankBounds[i]
  {
    if best < 5.0 then 0
    else if best < 10.0 then 1
    else if best < 20.0 then 2
    else if best < 40.0 then 3
    else 4
  }

  /** A larger best skill never gives a lower rank. */
  lemma RankIndexMonotone(a: real, b: real)
    requires a <= b
    ensures RankIndex(a) <= RankIndex(b)
  {
  }

  /** `get_player_profile` on what `get_user_skills` returns: a fresh Novice profile without
      skills; otherwise the level is the truncated average, and the title is the first best
      skill followed by the rank its value reaches. */
  function PlayerProfile(skills: Option<SkillVector>): (p: Profile)
    ensures skills.None? ==> p == Profile(0, "Novice", 0.0)
    ensures skills.Some? ==> var v := skills.value;
      p.totalXp == v.Total() / 5.0 &&
      (v.Total() >= 0.0 ==> p.level as real <= v.Total() / 5.0 < p.level as real + 1.0) &&
      exists k :: 0 <= k < |SkillNames| &&
        p.title == SkillNames[k] + " " + RankNames[RankIndex(v.Get(SkillNames[k]))] &&
        (forall j :: 0 <= j < |SkillNames| ==> v.Get(SkillNames[j]) <= v.Get(SkillNames[k])) &&
        (forall j :: 0 <= j < k ==> v.Get(SkillNames[j]) < v.Get(SkillNames[k]))
  {
    match skills
    case None => Profile(0, "Novice", 0.0)
    case Some(v) =>
      var items := v.Items();
      SumOfItemsIsTotal(v);
      var avgXp := SumValues(items) / 5.0;
      var k := FirstMax(items, ItemValue);
      assert forall j :: 0 <= j < |items| ==> ItemValue(items[j]) == v.Get(SkillNames[j]);
      var best := items[k];
      Profile(Truncate(avgXp), best.0 + " " + RankNames[RankIndex(best.1)], avgXp)
  }

  // ---------------------------------------------------------------- topics and locks

  /** `get_required_skill_for_topic`: the first matching rule on the lower-cased topic wins. */
  function RequiredSkillForTopic(topic: string): (skill: string)
    ensures IsSkillName(skill)
    ensures var t := Lower(topic);
      (skill == "Loops" <==> IsSubstring("loop", t)) &&
      (skill == "Recursion" <==> !IsSubstring("loop", t) && IsSubstring("recursion", t)) &&
      (skill == "Data_Structures" <==>
        (!IsSubstring("loop", t) && !IsSubstring("recursion", t) &&
         (IsSubstring("list", t) || IsSubstring("dict", t) || IsSubstring("class", t)))) &&
      (skill == "Syntax" <==>
        (!IsSubstring("loop", t) && !IsSubstring("recursion", t) &&
         !IsSubstring("list", t) && !IsSubstring("dict", t) && !IsSubstring("class", t) &&
         IsSubstring("syntax", t)))
  {
    var topicLower := Lower(topic);
    if IsSubstring("loop", topicLower) then "Loops"
    else if IsSubstring("recursion", topicLower) then "Recursion"
    else if IsSubstring("list", topicLower) || IsSubstring("dict", topicLower) || IsSubstring("class", topicLower) then "Data_Structures"
    else if IsSubstring("syntax", topicLower) then "Syntax"
    else "Logic"
  }

  /** The mapping does not depend on the case the topic is written in. */
  lemma RequiredSkillIgnoresCase(topic: string)
    ensures RequiredSkillForTopic(Upper(topic)) == RequiredSkillForTopic(topic)
    ensures RequiredSkillForTopic(Lower(topic)) == RequiredSkillForTopic(topic)
  {
    LowerForgetsCase(topic);
  }

  const IntermediateBar: real := 5.0
  const AdvancedBar: real := 10.0

  /** `is_problem_locked`: an Intermediate problem needs 5.0 and an Advanced one 10.0 in the
      skill its topic trains (a missing skill counts as 0.0); anything else is open. */
  function IsProblemLocked(snippet: Retriever.Snippet, userSkills: map<string, real>): (locked: bool)
    ensures var difficulty := snippet.difficulty.GetOr("Novice");
      var have := GetOr(userSkills, RequiredSkillForTopic(snippet.topic.GetOr("General")), 0.0);
      locked <==> (difficulty == "Intermediate" && have < IntermediateBar) ||
                  (difficulty == "Advanced" && have < AdvancedBar)
  {
    var difficulty := snippet.difficulty.GetOr("Novice");
    var topic := snippet.topic.GetOr("General");
    if difficulty == "Novice" then false
    else
      var requiredSkill := RequiredSkillForTopic(topic);
      var userSkillVal := GetOr(userSkills, requiredSkill, 0.0);
      if difficulty == "Intermediate" && userSkillVal < IntermediateBar then true
      else if difficulty == "Advanced" && userSkillVal < AdvancedBar then true
      else false
  }

  /** Gaining skill never locks a problem: a problem open at some skill value stays open at a
      higher one. */
  lemma UnlockIsMonotone(snippet: Retriever.Snippet, before: map<string, real>, after: map<string, real>)
    requires var skill := RequiredSkillForTopic(snippet.topic.GetOr("General"));
      GetOr(before, skill, 0.0) <= GetOr(after, skill, 0.0)
    ensures IsProblemLocked(snippet, after) ==> IsProblemLocked(snippet, before)
  {
  }

  /** `check_calibration_needed`: a user without a skill row, or whose skills sum to zero. */
  function CalibrationNeeded(rows: seq<SkillRow>, userId: nat): (needed: bool)
    ensures GetUserSkills(rows, userId).None? ==> needed
    ensures GetUserSkills(rows, userId).Some? ==>
      (needed <==> SumValues(GetUserSkills(rows, userId).value.Items()) == 0.0)
  {
    match GetUserSkills(rows, userId)
    case None => true
    case Some(v) =>
      SumOfItemsIsTotal(v);
      v.Total() == 0.0
  }

  /** With skills that never go negative, calibration is needed exactly when every skill is
      still zero. */
  lemma CalibrationNeededIffUntrained(rows: seq<SkillRow>, userId: nat)
    requires GetUserSkills(rows, userId).Some?
    requires forall n :: IsSkillName(n) ==> GetUserSkills(rows, userId).value.Get(n) >= 0.0
    ensures CalibrationNeeded(rows, userId) <==>
      forall n :: IsSkillName(n) ==> GetUserSkills(rows, userId).value.Get(n) == 0.0
  {
    var v := GetUserSkills(rows, userId).value;
    SumOfItemsIsTotal(v);
    assert v.Get("Loops") >= 0.0 && v.Get("Recursion") >= 0.0 && v.Get("Syntax") >= 0.0 &&
      v.Get("Logic") >= 0.0 && v.Get("Data_Structures") >= 0.0;
  }

  // ---------------------------------------------------------------- the judge

  /** What the language model call gave back: a response whose text may be missing, or an
      exception with its message. */
  datatype Reply = Returned(text: Option<string>) | Failed(error: string)

  /** `ai_judge`'s `(passed, message)`, or the exception it lets through. */
  datatype Judgement = Judged(passed: bool, message: string) | JudgeRaised

  /** The reading of a stripped reply: it passes when it begins with YES in any case; the
      message is what follows the first colon, or a stock remark when there is none. */
  function ParseVerdict(text: string): (j: (bool, string))
    ensures j.0 <==> StartsWith(Upper(text), "YES")
    ensures ':' in text ==>
      exists k :: (0 <= k < |text| && text[k] == ':' && ':' !in text[..k] &&
                   j.1 == Strip(text[k + 1..]))
    ensures ':' !in text ==> j.1 == if j.0 then "Good job!" else "Not quite."
  {
    var passed := StartsWith(Upper(text), "YES");
    var message := if ':' in text then Strip(AfterFirstColon(text)) else if passed then "Good job!" else "Not quite.";
    (passed, message)
  }

  function ReplyText(reply: Reply): string
    requires reply.Returned?
  {
    Strip(reply.text.GetOr(""))
  }

  /** `ai_judge`: a fix that does not parse fails with the parser's message, without Gemini the
      judgement is offline, a failed call reports its error, and otherwise the reply decides. */
  function AiJudge(fix: AstAnalyzer.ParseResult, hasGemini: bool, reply: Reply): (r: Judgement)
    ensures r.JudgeRaised? <==> fix.OtherError?
    ensures fix.SyntaxError? ==>
      r == Judged(false, "Syntax Error: " + fix.msg + " at line " + NatToString(fix.lineno))
    ensures fix.Parsed? && !hasGemini ==> r == Judged(false, "Offline Mode.")
    ensures fix.Parsed? && hasGemini && reply.Failed? ==> r == Judged(false, "AI Error: " + reply.error)
    ensures fix.Parsed? && hasGemini && reply.Returned? ==>
      r == Judged(ParseVerdict(ReplyText(reply)).0, ParseVerdict(ReplyText(reply)).1)
  {
    match fix
    case SyntaxError(msg, lineno) => Judged(false, "Syntax Error: " + msg + " at line " + NatToString(lineno))
    case OtherError => JudgeRaised
    case Parsed(_) =>
      if !hasGemini then Judged(false, "Offline Mode.")
      else match reply
        case Failed(e) => Judged(false, "AI Error: " + e)
        case Returned(_) =>
          var (passed, message) := ParseVerdict(ReplyText(reply));
          Judged(passed, message)
  }

  /** A fix passes exactly when it parses, Gemini is available, and the reply says YES. */
  lemma JudgePassesIffYes(fix: AstAnalyzer.ParseResult, hasGemini: bool, reply: Reply)
    ensures (AiJudge(fix, hasGemini, reply).Judged? && AiJudge(fix, hasGemini, reply).passed) <==>
      (fix.Parsed? && hasGemini && reply.Returned? && StartsWith(Upper(ReplyText(reply)), "YES"))
  {
  }

  // ---------------------------------------------------------------- calibration quiz

  /** A question's reward, in the order its dictionary literal lists the skills. */
  type Points = seq<(string, real)>

  /** Each skill appears once among the points. */
  predicate UniqueSkills(points: Points) {
    forall i, j :: 0 <= i < j < |points| ==> points[i].0 != points[j].0
  }

  /** Every point is a positive amount of a known skill. */
  predicate PositiveSkillPoints(points: Points) {
    forall i :: 0 <= i < |points| ==> IsSkillName(points[i].0) && points[i].1 > 0.0
  }

  datatype Question = Question(id: string, topic: string, code: string, hint: string, reward: Points)

  const CalibrationTest: seq<Question> := [
    Question("calib_01", "Syntax", "def greet(name)\n    print('Hello ' + name)",
      "Focus on the function definition line. Python requires a specific symbol at the end.",
      [("Syntax", 2.0), ("Logic", 1.0)]),
    Question("calib_02", "Loops", "count = 0\nwhile count < 3:\n    print(count)",
      "This loop runs forever because the condition never becomes False. How do you change 'count'?",
      [("Loops", 2.0), ("Logic", 1.0)]),
    Question("calib_03", "Recursion", "def fact(n):\n    return n * fact(n-1)",
      "Infinite recursion! You need a 'base case' to stop calling the function when n reaches 0 or 1.",
      [("Recursion", 2.0), ("Logic", 1.0)]),
    Question("calib_04", "Conditionals", "x = 10\nif x = 10:\n    print('Equal')",
      "In Python, a single '=' is for assignment. What do we use for comparison?",
      [("Logic", 2.0), ("Syntax", 1.0)]),
    Question("calib_05", "Data Structures", "my_list = [1, 2, 3]\nprint(my_list[3])",
      "Lists are 0-indexed. The last item is at index 2. Index 3 is out of bounds.",
      [("Data_Structures", 2.0), ("Logic", 1.0)])
  ]

  /** Every calibration reward names each skill once, with a positive amount. */
  lemma CalibrationRewardsAreSkillPoints(i: nat)
    requires i < |CalibrationTest|
    ensures UniqueSkills(CalibrationTest[i].reward) && PositiveSkillPoints(CalibrationTest[i].reward)
  {
  }

  const MaxLives: nat := 3

  /** `max(0.5, 1.0 - attempts * 0.25)`: the share of the reward a correct answer earns. */
  function Multiplier(attempts: nat): (m: real)
    ensures 0.5 <= m <= 1.0
    ensures attempts == 0 ==> m == 1.0
  {
    var m := 1.0 - attempts as real * 0.25;
    if m < 0.5 then 0.5 else m
  }

  /** Each wasted attempt lowers the share, down to the floor of one half. */
  lemma MultiplierMonotone(a: nat, b: nat)
    requires a <= b
    ensures Multiplier(b) <= Multiplier(a)
    ensures b >= 2 ==> Multiplier(b) == 0.5
  {
  }

  /** `v * m`, named so that the solver treats the product as one term. */
  function Scaled(v: real, m: real): real {
    v * m
  }

  /** The score after a correct answer: the points are added one by one, each scaled by `m`;
      this is the specification of the `for k, v in points.items()` loop. */
  function Awarded(score: map<string, real>, points: Points, m: real): map<string, real>
    decreases |points|
  {
    if points == [] then score
    else
      var before := Awarded(score, points[..|points| - 1], m);
      var last := points[|points| - 1];
      before[last.0 := GetOr(before, last.0, 0.0) + Scaled(last.1, m)]
  }

  /** The keys after awarding are the old ones and the rewarded skills. */
  lemma {:induction false} AwardedKeys(score: map<string, real>, points: Points, m: real)
    ensures forall k :: k in Awarded(score, points, m) <==>
      k in score || exists i :: 0 <= i < |points| && points[i].0 == k
    decreases |points|
  {
    if points != [] {
      var init := points[..|points| - 1];
      AwardedKeys(score, init, m);
      forall i | 0 <= i < |init| ensures init[i] == points[i] { }
    }
  }

  /** An entry that is not rewarded keeps its value. */
  lemma {:induction false} AwardedKeepsOthers(score: map<string, real>, points: Points, m: real, k: string)
    requires k in score && forall i :: 0 <= i < |points| ==> points[i].0 != k
    ensures k in Awarded(score, points, m) && Awarded(score, points, m)[k] == score[k]
    decreases |points|
  {
    if points != [] {
      var init := points[..|points| - 1];
      assert forall i :: 0 <= i < |init| ==> init[i] == points[i];
      AwardedKeepsOthers(score, init, m, k);
    }
  }

  /** A skill not among the points is left alone by awarding them. */
  lemma {:induction false} AwardedUntouched(score: map<string, real>, points: Points, m: real, k: string)
    requires forall i :: 0 <= i < |points| ==> points[i].0 != k
    ensures GetOr(Awarded(score, points, m), k, 0.0) == GetOr(score, k, 0.0)
    decreases |points|
  {
    if points != [] {
      var init := points[..|points| - 1];
      assert forall i :: 0 <= i < |init| ==> init[i] == points[i];
      AwardedUntouched(score, init, m, k);
    }
  }

  /** Each rewarded skill, named once, gains `m` times its points. */
  lemma {:induction false} AwardedGains(score: map<string, real>, points: Points, m: real, i: nat)
    requires UniqueSkills(points) && i < |points|
    ensures points[i].0 in Awarded(score, points, m)
    ensures Awarded(score, points, m)[points[i].0] == GetOr(score, points[i].0, 0.0) + Scaled(points[i].1, m)
    decreases |points|
  {
    var init := points[..|points| - 1];
    if i < |points| - 1 {
      assert UniqueSkills(init) by {
        forall a, b | 0 <= a < b < |init| ensures init[a].0 != init[b].0 {
          assert init[a] == points[a] && init[b] == points[b];
        }
      }
      AwardedGains(score, init, m, i);
      assert init[i] == points[i];
    } else {
      assert forall a :: 0 <= a < |init| ==> init[a] == points[a];
      AwardedUntouched(score, init, m, points[i].0);
    }
  }

  /** Awarding non-negative multiples of positive points to a score of known skills keeps it a
      score of known skills with non-negative values. */
  lemma {:induction false} AwardedKeepsScoreValid(score: map<string, real>, points: Points, m: real)
    requires forall k :: k in score ==> IsSkillName(k) && score[k] >= 0.0
    requires PositiveSkillPoints(points) && m >= 0.0
    ensures forall k :: k in Awarded(score, points, m) ==>
      IsSkillName(k) && Awarded(score, points, m)[k] >= 0.0
    decreases |points|
  {
    if points != [] {
      var init := points[..|points| - 1];
      assert PositiveSkillPoints(init) by {
        forall i | 0 <= i < |init| ensures IsSkillName(init[i].0) && init[i].1 > 0.0 {
          assert init[i] == points[i];
        }
      }
      AwardedKeepsScoreValid(score, init, m);
      assert Scaled(points[|points| - 1].1, m) >= 0.0;
    }
  }

  /** The `for k, v in points.items()` loop. */
  method AwardPoints(score: map<string, real>, points: Points, m: real) returns (result: map<string, real>)
    ensures result == Awarded(score, points, m)
  {
    result := score;
    for i := 0 to |points|
      invariant result == Awarded(score, points[..i], m)
    {
      var (k, v) := points[i];
      assert points[..i + 1][..i] == points[..i] && points[..i + 1][i] == (k, v);
      result := result[k := GetOr(result, k, 0.0) + Scaled(v, m)];
    }
    assert points[..|points|] == points;
  }

  datatype QuizStatus = Active | Succeeded | OutOfLives

  /** The feedback line under a question. */
  datatype Feedback = Correct(percent: int) | TryAgain(hint: string) | NoLivesLeft(hint: string)

  datatype FeedbackKind = SuccessFeedback | ErrorFeedback

  /** The calibration quiz's session state: the question index, the points earned, the wrong
      attempts on the current question, its status and the feedback shown. */
  class CalibrationQuiz {
    var idx: nat
    var score: map<string, real>
    var attempts: nat
    var status: QuizStatus
    var feedback: Option<Feedback>
    var feedbackType: Option<FeedbackKind>

    /** A question is failed exactly when all lives are spent, and the score only ever holds
        non-negative points of known skills. */
    ghost predicate Valid()
      reads this
    {
      attempts <= MaxLives &&
      (status == OutOfLives <==> attempts == MaxLives) &&
      (forall k :: k in score ==> IsSkillName(k) && score[k] >= 0.0)
    }

    constructor ()
      ensures Valid()
      ensures idx == 0 && score == map[] && attempts == 0 && status == Active
      ensures feedback == None && feedbackType == None
    {
      idx := 0;
      score := map[];
      attempts := 0;
      status := Active;
      feedback := None;
      feedbackType := None;
    }

    /** The hearts shown: lives left plus lives lost is always three, and no heart is left
        exactly when the quiz is over for lack of lives. */
    function LivesLeft(): (lives: nat)
      requires Valid()
      reads this
      ensures lives + attempts == MaxLives
      ensures lives <= MaxLives
      ensures lives == 0 <==> status == OutOfLives
    {
      MaxLives - attempts
    }

    function IsComplete(): bool
      reads this
    {
      idx >= |CalibrationTest|
    }

    /** "Check Answer", offered only while the question is active. A correct answer succeeds
        and earns the reward scaled by the multiplier; a wrong one costs a life and fails the
        question when the last life is gone. */
    method CheckAnswer(passed: bool)
      requires Valid() && idx < |CalibrationTest|
      modifies this
      ensures Valid()
      ensures idx == old(idx)
      ensures old(status) != Active ==>
        score == old(score) && attempts == old(attempts) && status == old(status) &&
        feedback == old(feedback) && feedbackType == old(feedbackType)
      ensures old(status) == Active && passed ==>
        status == Succeeded && attempts == old(attempts) &&
        score == Awarded(old(score), CalibrationTest[idx].reward, Multiplier(old(attempts))) &&
        feedback == Some(Correct(Truncate(Multiplier(old(attempts)) * 100.0))) &&
        feedbackType == Some(SuccessFeedback)
      ensures old(status) == Active && !passed ==>
        attempts == old(attempts) + 1 && score == old(score) &&
        status == (if attempts >= MaxLives then OutOfLives else Active) &&
        feedback == Some(if attempts >= MaxLives then NoLivesLeft(CalibrationTest[idx].hint)
                         else TryAgain(CalibrationTest[idx].hint)) &&
        feedbackType == Some(ErrorFeedback)
    {
      if status == Active {
        var q := CalibrationTest[idx];
        if passed {
          status := Succeeded;
          var multiplier := Multiplier(attempts);
          var newScore := AwardPoints(score, q.reward, multiplier);
          CalibrationRewardsAreSkillPoints(idx);
          AwardedKeepsScoreValid(score, q.reward, multiplier);
          score := newScore;
          feedback := Some(Correct(Truncate(multiplier * 100.0)));
          feedbackType := Some(SuccessFeedback);
        } else {
          attempts := attempts + 1;
          if attempts >= MaxLives {
            status := OutOfLives;
            feedback := Some(NoLivesLeft(q.hint));
          } else {
            feedback := Some(TryAgain(q.hint));
          }
          feedbackType := Some(ErrorFeedback);
        }
      }
    }

    /** "Next Question" (or "Finish Calibration"), offered once the question is decided, and
        "Skip Question", offered while it is active: both move on to a fresh question. */
    method Advance(skip: bool)
      requires Valid()
      modifies this
      ensures Valid()
      ensures score == old(score) && feedbackType == old(feedbackType)
      ensures (if skip then old(status) == Active else old(status) != Active) ==>
        idx == old(idx) + 1 && attempts == 0 && status == Active && feedback == None
      ensures !(if skip then old(status) == Active else old(status) != Active) ==>
        idx == old(idx) && attempts == old(attempts) && status == old(status) && feedback == old(feedback)
    {
      var offered := if skip then status == Active else status == Succeeded || status == OutOfLives;
      if offered {
        idx := idx + 1;
        attempts := 0;
        status := Active;
        feedback := None;
      }
    }
  }

  /** The end of the quiz stores the points earned as the user's skills. */
  method FinishCalibration(quiz: CalibrationQuiz, store: Store, userId: nat)
    requires quiz.Valid() && store.Valid() && quiz.IsComplete()
    modifies store
    ensures store.Valid()
    ensures store.users == old(store.users) && store.attempts == old(store.attempts)
    ensures match FirstWhere(old(store.skillRows), RowOf(userId))
      case None => store.skillRows == old(store.skillRows)
      case Some(k) =>
        store.skillRows == old(store.skillRows)[k := SkillRow(userId, WithUpdates(old(store.skillRows)[k].skills, quiz.score))]
  {
    store.UpdateUserSkills(userId, quiz.score);
  }

  /** "Skip Calibration" grants one point of Syntax and one of Logic. */
  const SkipCalibrationSkills: map<string, real> := map["Syntax" := 1.0, "Logic" := 1.0]

  method SkipCalibration(store: Store, userId: nat)
    requires store.Valid()
    modifies store
    ensures store.Valid()
    ensures store.users == old(store.users) && store.attempts == old(store.attempts)
    ensures match FirstWhere(old(store.skillRows), RowOf(userId))
      case None => store.skillRows == old(store.skillRows)
      case Some(k) =>
        store.skillRows == old(store.skillRows)[k := SkillRow(userId, WithUpdates(old(store.skillRows)[k].skills, SkipCalibrationSkills))]
  {
    store.UpdateUserSkills(userId, SkipCalibrationSkills);
  }

  // ---------------------------------------------------------------- rewards for a fix

  /** The fallback rewards for a detected concept: half a point of Logic, plus points for the
      concepts the name mentions. */
  ghost predicate IsFallbackFor(r: map<string, real>, detected: string) {
    (forall k :: k in r ==> IsSkillName(k)) &&
    "Logic" in r && r["Logic"] == 0.5 &&
    ("Loops" in r <==> IsSubstring("Loop", detected)) && ("Loops" in r ==> r["Loops"] == 1.0) &&
    ("Recursion" in r <==> IsSubstring("Recursion", detected)) && ("Recursion" in r ==> r["Recursion"] == 1.5) &&
    ("Syntax" in r <==> IsSubstring("Syntax", detected) || IsSubstring("Indentation", detected)) &&
    ("Syntax" in r ==> r["Syntax"] == 1.0) &&
    ("Data_Structures" in r <==> IsSubstring("Data", detected) || IsSubstring("List", detected)) &&
    ("Data_Structures" in r ==> r["Data_Structures"] == 1.0)
  }

  method FallbackRewards(detected: string) returns (rewards: map<string, real>)
    ensures IsFallbackFor(rewards, detected)
  {
    rewards := map["Logic" := 0.5];
    if IsSubstring("Loop", detected) { rewards := rewards["Loops" := 1.0]; }
    if IsSubstring("Recursion", detected) { rewards := rewards["Recursion" := 1.5]; }
    if IsSubstring("Syntax", detected) || IsSubstring("Indentation", detected) { rewards := rewards["Syntax" := 1.0]; }
    if IsSubstring("Data", detected) || IsSubstring("List", detected) { rewards := rewards["Data_Structures" := 1.0]; }
  }

  /** The snippet rewards of the analysis's match, empty when there is no match. */
  function MatchRewards(analysis: Option<Retriever.Response>): map<string, real> {
    if analysis.Some? && analysis.value.Success? then analysis.value.top.skillRewards else map[]
  }

  /** The detected concept, "Logic" when there is no analysis. */
  function DetectedConcept(analysis: Option<Retriever.Response>): string
    requires analysis.Some? ==> !analysis.value.Raised?
  {
    if analysis.None? then "Logic" else analysis.value.concept
  }

  /** `rewards_to_log`: nothing for a failed fix; for a passed one the match's own rewards when
      it has any, otherwise the fallback for the detected concept. */
  method FixRewards(passed: bool, analysis: Option<Retriever.Response>) returns (rewards: map<string, real>)
    requires analysis.Some? ==> !analysis.value.Raised?
    ensures !passed ==> rewards == map[]
    ensures passed && MatchRewards(analysis) != map[] ==> rewards == MatchRewards(analysis)
    ensures passed && MatchRewards(analysis) == map[] ==> IsFallbackFor(rewards, DetectedConcept(analysis))
  {
    rewards := map[];
    if passed {
      var topRewards := MatchRewards(analysis);
      if topRewards != map[] {
        rewards := topRewards;
      } else {
        var detected := if analysis.Some? then analysis.value.concept else "Logic";
        rewards := FallbackRewards(detected);
      }
    }
  }

  /** `render_step3_fix` after the judge. An analysis without a top match (low confidence or a
      system error) makes the lookup of the predicted error type fail before anything is
      judged or logged; otherwise the attempt is logged with its rewards, and on a pass the
      rewards are added to the skills the user has. */
  method SubmitFix(store: Store, userId: nat, code: string, sessionId: Option<string>,
                   passed: bool, analysis: Option<Retriever.Response>, now: int)
    returns (raised: bool, rewards: map<string, real>)
    requires store.Valid()
    requires analysis.Some? ==> !analysis.value.Raised?
    requires forall i :: 0 <= i < |store.attempts| ==> store.attempts[i].timestamp <= now
    requires passed && !(analysis.Some? && analysis.value.NoMatch?) ==> GetUserSkills(store.skillRows, userId).Some?
    modifies store
    ensures store.Valid()
    ensures raised <==> analysis.Some? && analysis.value.NoMatch?
    ensures store.users == old(store.users)
    ensures raised ==>
      rewards == map[] && store.attempts == old(store.attempts) && store.skillRows == old(store.skillRows)
    ensures !raised ==> (store.attempts == old(store.attempts) +
      [Attempt(userId, SessionIdOrUnknown(sessionId), "USER_INPUT", code, passed, rewards, now)])
    ensures !raised && !passed ==> rewards == map[] && store.skillRows == old(store.skillRows)
    ensures !raised && passed ==>
      GetUserSkills(store.skillRows, userId) ==
        Some(AddRewards(GetUserSkills(old(store.skillRows), userId).value, rewards))
  {
    if analysis.Some? && analysis.value.NoMatch? {
      return true, map[];
    }
    raised := false;
    rewards := FixRewards(passed, analysis);
    store.LogAttempt(userId, "USER_INPUT", code, passed, sessionId, Some(rewards), now);
    if passed {
      var current := GetUserSkills(store.skillRows, userId).value;
      var merged := AccumulateRewards(current, rewards);
      var newSkills := merged.AsMap();
      ghost var k := FirstWhere(store.skillRows, RowOf(userId)).value;
      ghost var rows := store.skillRows;
      store.UpdateUserSkills(userId, newSkills);
      MergeIsAddition(rows, userId, k, current, rewards);
    }
  }

  /** Writing back the merged dictionary sets every skill to its sum with the reward. */
  lemma MergeIsAddition(rows: seq<SkillRow>, userId: nat, k: nat, current: SkillVector, rewards: map<string, real>)
    requires FirstWhere(rows, RowOf(userId)) == Some(k) && rows[k].skills == current
    ensures var rows' := rows[k := SkillRow(userId, WithUpdates(current, AddRewards(current, rewards).AsMap()))];
      GetUserSkills(rows', userId) == Some(AddRewards(current, rewards))
  {
    var merged := AddRewards(current, rewards);
    var w := WithUpdates(current, merged.AsMap());
    SkillVectorExt(w, merged);
    var rows' := rows[k := SkillRow(userId, w)];
    assert forall i :: 0 <= i < k ==> rows'[i] == rows[i];
    FirstWhereAt(rows', RowOf(userId), k);
  }

}
