/** Progress reports over the store: the weakest skill to study next, and the skill history
    rebuilt from the successful attempts (the chart drawn from it is not modelled). */
module Analytics {
  import opened Wrappers
  import opened Strings
  import opened Tables
  import opened Skills
  import opened StableSort
  import opened Database

  /** `recommend_study_topic`: nothing without a skill row; otherwise the skill with the
      smallest value, the first in dictionary order on ties. */
  function RecommendStudyTopic(rows: seq<SkillRow>, userId: nat): (r: Option<string>)
    ensures r.None? <==> GetUserSkills(rows, userId).None?
    ensures r.Some? ==> var v := GetUserSkills(rows, userId).value;
      exists k :: 0 <= k < |SkillNames| && r.value == SkillNames[k] &&
        (forall j :: 0 <= j < |SkillNames| ==> v.Get(SkillNames[k]) <= v.Get(SkillNames[j])) &&
        (forall j :: 0 <= j < k ==> v.Get(SkillNames[k]) < v.Get(SkillNames[j]))
  {
    match GetUserSkills(rows, userId)
    case None => None
    case Some(v) =>
      var items := v.Items();
      var k := FirstMin(items, ItemValue);
      assert forall j :: 0 <= j < |items| ==> ItemValue(items[j]) == v.Get(SkillNames[j]);
      Some(items[k].0)
  }

  // ---------------------------------------------------------------- history

  /** A history row's "Session" column: "Start", or "S" followed by the session's number. */
  datatype Label = Start | Session(n: nat)

  function LabelText(l: Label): string {
    match l
    case Start => "Start"
    case Session(n) => "S" + NatToString(n)
  }

  datatype Snapshot = Snapshot(sessionLabel: Label, scores: SkillVector)

  /** The running scores after the first `n` entries: every reward added to its skill. */
  function ScoresAfter(raw: seq<ProgressEntry>, n: nat): SkillVector
    requires n <= |raw|
  {
    if n == 0 then NoSkills else AddRewards(ScoresAfter(raw, n - 1), raw[n - 1].rewards)
  }

  /** The `seen_sessions` dictionary and the session counter. */
  datatype Numbering = Numbering(seen: map<string, nat>, counter: nat)

  /** The numbering after the first `n` entries: a session seen for the first time gets the
      next number. */
  function NumberingAfter(raw: seq<ProgressEntry>, n: nat): Numbering
    requires n <= |raw|
  {
    if n == 0 then Numbering(map[], 0)
    else
      var before := NumberingAfter(raw, n - 1);
      var sid := raw[n - 1].sessionId;
      if sid in before.seen then before
      else Numbering(before.seen[sid := before.counter + 1], before.counter + 1)
  }

  /** The numbering names every session among the entries read, and nothing else. */
  lemma {:induction false} NumberingNamesSessions(raw: seq<ProgressEntry>, n: nat, s: string)
    requires n <= |raw|
    ensures s in NumberingAfter(raw, n).seen <==> exists i :: 0 <= i < n && raw[i].sessionId == s
    decreases n
  {
    if n > 0 {
      NumberingNamesSessions(raw, n - 1, s);
      if raw[n - 1].sessionId == s {
        assert 0 <= n - 1 < n && raw[n - 1].sessionId == s;
      } else if exists i :: 0 <= i < n && raw[i].sessionId == s {
        var i :| 0 <= i < n && raw[i].sessionId == s;
        assert i < n - 1;
      }
    }
  }

  /** Session numbers run from one up to the counter. */
  lemma {:induction false} NumberingBounded(raw: seq<ProgressEntry>, n: nat, s: string)
    requires n <= |raw| && s in NumberingAfter(raw, n).seen
    ensures 1 <= NumberingAfter(raw, n).seen[s] <= NumberingAfter(raw, n).counter
    decreases n
  {
    if n > 0 && s in NumberingAfter(raw, n - 1).seen {
      NumberingBounded(raw, n - 1, s);
    }
  }

  /** No two sessions share a number. */
  lemma {:induction false} NumberingInjective(raw: seq<ProgressEntry>, n: nat, a: string, b: string)
    requires n <= |raw| && a in NumberingAfter(raw, n).seen && b in NumberingAfter(raw, n).seen
    requires NumberingAfter(raw, n).seen[a] == NumberingAfter(raw, n).seen[b]
    ensures a == b
    decreases n
  {
    var before := NumberingAfter(raw, n - 1);
    if a in before.seen && b in before.seen {
      NumberingInjective(raw, n - 1, a, b);
    } else if a in before.seen {
      NumberingBounded(raw, n - 1, a);
    } else if b in before.seen {
      NumberingBounded(raw, n - 1, b);
    }
  }

  /** Once a session has a number it keeps it. */
  lemma {:induction false} NumberingStable(raw: seq<ProgressEntry>, i: nat, n: nat, s: string)
    requires i <= n <= |raw| && s in NumberingAfter(raw, i).seen
    ensures s in NumberingAfter(raw, n).seen
    ensures NumberingAfter(raw, n).seen[s] == NumberingAfter(raw, i).seen[s]
    decreases n
  {
    if i < n {
      NumberingStable(raw, i, n - 1, s);
    }
  }

  /** The number of entry `k`'s session, as `seen_sessions` holds it once entry `k` is read. */
  function SessionNumber(raw: seq<ProgressEntry>, k: nat): nat
    requires k < |raw|
  {
    NumberingAfter(raw, k + 1).seen[raw[k].sessionId]
  }

  /** The row for entry `k`: labelled by its session, holding the scores accumulated up to
      and including it. */
  function RowAt(raw: seq<ProgressEntry>, k: nat): Snapshot
    requires k < |raw|
  {
    Snapshot(Session(SessionNumber(raw, k)), ScoresAfter(raw, k + 1))
  }

  /** The first `n` values of `f`, in order. */
  function Tabulate<T>(f: nat -> T, n: nat): (r: seq<T>)
    ensures |r| == n
  {
    if n == 0 then [] else Tabulate(f, n - 1) + [f(n - 1)]
  }

  lemma {:induction false} TabulateIndex<T>(f: nat -> T, n: nat, k: nat)
    requires k < n
    ensures Tabulate(f, n)[k] == f(k)
    decreases n
  {
    if k < n - 1 {
      TabulateIndex(f, n - 1, k);
    }
  }

  /** The row of entry `k`, and the Start row past the end of the log. */
  function RowOrStart(raw: seq<ProgressEntry>): nat -> Snapshot {
    (k: nat) => if k < |raw| then RowAt(raw, k) else Snapshot(Start, NoSkills)
  }

  /** `h` is the history of `raw`: a Start row of zeros, then one row per entry. */
  ghost predicate IsHistoryOf(h: seq<Snapshot>, raw: seq<ProgressEntry>) {
    |h| == |raw| + 1 &&
    h[0] == Snapshot(Start, NoSkills) &&
    forall k :: 1 <= k < |h| ==> h[k] == RowAt(raw, k - 1)
  }

  /** One entry of the history loop: number its session, add its rewards, and form its row. */
  method HistoryStep(raw: seq<ProgressEntry>, i: nat, seenSessions: map<string, nat>, sessionCounter: nat,
                     currentScores: SkillVector)
    returns (seen': map<string, nat>, counter': nat, scores': SkillVector, row: Snapshot)
    requires i < |raw|
    requires Numbering(seenSessions, sessionCounter) == NumberingAfter(raw, i)
    requires currentScores == ScoresAfter(raw, i)
    ensures Numbering(seen', counter') == NumberingAfter(raw, i + 1)
    ensures scores' == ScoresAfter(raw, i + 1)
    ensures row == RowAt(raw, i)
  {
    var sid := raw[i].sessionId;
    seen', counter' := seenSessions, sessionCounter;
    if sid !in seen' {
      counter' := counter' + 1;
      seen' := seen'[sid := counter'];
    }
    scores' := AccumulateRewards(currentScores, raw[i].rewards);
    row := Snapshot(Session(seen'[sid]), scores');
  }

  lemma HistoryRowsSnoc(raw: seq<ProgressEntry>, rows: seq<Snapshot>, i: nat, row: Snapshot)
    requires i < |raw| && row == RowAt(raw, i)
    requires rows == [Snapshot(Start, NoSkills)] + Tabulate(RowOrStart(raw), i)
    ensures rows + [row] == [Snapshot(Start, NoSkills)] + Tabulate(RowOrStart(raw), i + 1)
  {
    assert RowOrStart(raw)(i) == row;
  }

  lemma TabulatedHistory(raw: seq<ProgressEntry>, rows: seq<Snapshot>)
    requires rows == [Snapshot(Start, NoSkills)] + Tabulate(RowOrStart(raw), |raw|)
    ensures IsHistoryOf(rows, raw)
  {
    forall k | 1 <= k < |rows| ensures rows[k] == RowAt(raw, k - 1) {
      TabulateIndex(RowOrStart(raw), |raw|, k - 1);
    }
  }

  /** The history part of `generate_progress_chart`: nothing for an empty log, otherwise the
      Start row and one snapshot per entry. */
  method BuildHistory(raw: seq<ProgressEntry>) returns (history: Option<seq<Snapshot>>)
    ensures history.None? <==> raw == []
    ensures history.Some? ==> IsHistoryOf(history.value, raw)
  {
    if raw == [] {
      return None;
    }
    var rows := [Snapshot(Start, NoSkills)];
    var currentScores := NoSkills;
    var seenSessions: map<string, nat> := map[];
    var sessionCounter: nat := 0;
    for i := 0 to |raw|
      invariant rows == [Snapshot(Start, NoSkills)] + Tabulate(RowOrStart(raw), i)
      invariant currentScores == ScoresAfter(raw, i)
      invariant Numbering(seenSessions, sessionCounter) == NumberingAfter(raw, i)
    {
      var row;
      seenSessions, sessionCounter, currentScores, row := HistoryStep(raw, i, seenSessions, sessionCounter, currentScores);
      HistoryRowsSnoc(raw, rows, i, row);
      rows := rows + [row];
    }
    TabulatedHistory(raw, rows);
    return Some(rows);
  }

  /** Two rows carry the same session label exactly when their entries belong to the same
      session. */
  lemma LabelsNameSessions(raw: seq<ProgressEntry>, k1: nat, k2: nat)
    requires k1 < |raw| && k2 < |raw|
    ensures SessionNumber(raw, k1) == SessionNumber(raw, k2) <==> raw[k1].sessionId == raw[k2].sessionId
  {
    NumberingStable(raw, k1 + 1, |raw|, raw[k1].sessionId);
    NumberingStable(raw, k2 + 1, |raw|, raw[k2].sessionId);
    if SessionNumber(raw, k1) == SessionNumber(raw, k2) {
      NumberingInjective(raw, |raw|, raw[k1].sessionId, raw[k2].sessionId);
    }
  }

  /** The first entry opens session 1; an entry of a session seen before keeps its number, and
      one of a new session gets the number after the last one handed out. */
  lemma SessionNumbersCount(raw: seq<ProgressEntry>, k: nat)
    requires k < |raw|
    ensures k == 0 ==> SessionNumber(raw, k) == 1
    ensures 1 <= SessionNumber(raw, k) <= NumberingAfter(raw, k).counter + 1
    ensures (forall i :: 0 <= i < k ==> raw[i].sessionId != raw[k].sessionId) <==>
      SessionNumber(raw, k) == NumberingAfter(raw, k).counter + 1
  {
    var before := NumberingAfter(raw, k);
    var sid := raw[k].sessionId;
    NumberingNamesSessions(raw, k, sid);
    if sid in before.seen {
      NumberingBounded(raw, k, sid);
      assert SessionNumber(raw, k) == before.seen[sid] <= before.counter;
      var i :| 0 <= i < k && raw[i].sessionId == sid;
    } else {
      assert SessionNumber(raw, k) == before.counter + 1;
    }
  }

  /** With non-negative rewards no skill ever goes down along the history. */
  lemma {:induction false} ScoresMonotone(raw: seq<ProgressEntry>, i: nat, j: nat, name: string)
    requires i <= j <= |raw|
    requires forall k :: 0 <= k < |raw| ==> NonNegativeRewards(raw[k].rewards)
    requires IsSkillName(name)
    ensures ScoresAfter(raw, i).Get(name) <= ScoresAfter(raw, j).Get(name)
  {
    ScoresGrow(raw, i, j);
    AtMostGet(ScoresAfter(raw, i), ScoresAfter(raw, j), name);
  }

  /** Every skill at once: later scores dominate earlier ones. */
  lemma {:induction false} ScoresGrow(raw: seq<ProgressEntry>, i: nat, j: nat)
    requires i <= j <= |raw|
    requires forall k :: 0 <= k < |raw| ==> NonNegativeRewards(raw[k].rewards)
    ensures AtMost(ScoresAfter(raw, i), ScoresAfter(raw, j))
    decreases j
  {
    if i < j {
      ScoresGrow(raw, i, j - 1);
      ScoresGrowStep(raw, j);
      AtMostTransitive(ScoresAfter(raw, i), ScoresAfter(raw, j - 1), ScoresAfter(raw, j));
    }
  }

  lemma ScoresGrowStep(raw: seq<ProgressEntry>, j: nat)
    requires 0 < j <= |raw| && NonNegativeRewards(raw[j - 1].rewards)
    ensures AtMost(ScoresAfter(raw, j - 1), ScoresAfter(raw, j))
  {
    AddRewardsGrows(ScoresAfter(raw, j - 1), raw[j - 1].rewards);
  }

  /** The last row of a history holds the totals over the whole log: each skill's score is
      the sum of that skill's rewards over all entries. */
  lemma HistoryEndsWithTotals(h: seq<Snapshot>, raw: seq<ProgressEntry>)
    requires raw != [] && IsHistoryOf(h, raw)
    ensures h[|h| - 1].scores == ScoresAfter(raw, |raw|)
  {
    assert h[|h| - 1] == RowAt(raw, |h| - 2);
  }
}
