/** The tutor's store: users, one skill row per user, and the attempt log. The three tables are
    sequences of rows in insertion order; the queries are functions over them, and `Store` holds
    them and performs the writes. Timestamps are integers supplied by the caller. */
module Database {
  import opened Wrappers
  import opened Tables
  import opened Skills
  import opened StableSort

  datatype User = User(id: nat, username: string, passwordHash: string, displayName: string)

  /** The dictionary `login_user` returns. */
  datatype UserData = UserData(id: nat, username: string, displayName: string)

  datatype SkillRow = SkillRow(userId: nat, skills: SkillVector)

  /** One logged attempt; `rewards` is the decoded `rewards_json`. */
  datatype Attempt = Attempt(
    userId: nat, sessionId: string, snippetId: string, code: string,
    success: bool, rewards: map<string, real>, timestamp: int)

  /** One entry of `get_user_sessions`. */
  datatype SessionSummary = SessionSummary(
    sessionId: string, timestamp: int, initialCode: string, solved: bool, attemptsCount: nat)

  /** One entry of `get_user_progress_data`. */
  datatype ProgressEntry = ProgressEntry(timestamp: int, sessionId: string, rewards: map<string, real>)

  datatype Stats = Stats(total: nat, success: nat)

  // ---------------------------------------------------------------- passwords

  const HashPrefix: string := "sha256:"

  /** A stand-in for the SHA-256 hex digest: what the store relies on is only that distinct
      passwords get distinct hashes. */
  function HashPass(password: string): string {
    HashPrefix + password
  }

  lemma HashPassInjective(p: string, q: string)
    ensures HashPass(p) == HashPass(q) <==> p == q
  {
    if HashPass(p) == HashPass(q) {
      assert p == HashPass(p)[|HashPrefix|..];
      assert q == HashPass(q)[|HashPrefix|..];
    }
  }

  // ---------------------------------------------------------------- row tests

  function HasUsername(username: string): User -> bool {
    (u: User) => u.username == username
  }

  function HasCredentials(username: string, hash: string): User -> bool {
    (u: User) => u.username == username && u.passwordHash == hash
  }

  function RowOf(userId: nat): SkillRow -> bool {
    (r: SkillRow) => r.userId == userId
  }

  function ByUser(userId: nat): Attempt -> bool {
    (a: Attempt) => a.userId == userId
  }

  function SuccessBy(userId: nat): Attempt -> bool {
    (a: Attempt) => a.userId == userId && a.success
  }

  function InSession(sessionId: string): Attempt -> bool {
    (a: Attempt) => a.sessionId == sessionId
  }

  function SessionIdOf(a: Attempt): string { a.sessionId }

  // ---------------------------------------------------------------- queries

  /** `login_user`: the first user with this name and this password's hash. */
  function Login(users: seq<User>, username: string, password: string): (r: Option<UserData>)
    ensures r.None? <==>
      forall i :: 0 <= i < |users| ==> !(users[i].username == username && users[i].passwordHash == HashPass(password))
    ensures r.Some? ==> exists i :: (0 <= i < |users| &&
      users[i].username == username && users[i].passwordHash == HashPass(password) &&
      r.value == UserData(users[i].id, username, users[i].displayName))
  {
    match FirstWhere(users, HasCredentials(username, HashPass(password)))
    case None => None
    case Some(k) => Some(UserData(users[k].id, users[k].username, users[k].displayName))
  }

  /** A freshly registered user logs in with exactly the password given at registration. */
  lemma LoginAfterRegister(users: seq<User>, username: string, password: string, displayName: string, attempt: string)
    requires forall i :: 0 <= i < |users| ==> users[i].username != username
    ensures var users' := users + [User(|users| + 1, username, HashPass(password), displayName)];
      Login(users', username, attempt).Some? <==> attempt == password
    ensures var users' := users + [User(|users| + 1, username, HashPass(password), displayName)];
      attempt == password ==> Login(users', username, attempt) == Some(UserData(|users| + 1, username, displayName))
  {
    var users' := users + [User(|users| + 1, username, HashPass(password), displayName)];
    HashPassInjective(attempt, password);
    assert users'[|users|].username == username;
    assert forall i :: 0 <= i < |users| ==> users'[i] == users[i];
  }

  /** `get_user_skills`: the user's first skill row, as the five-skill vector. */
  function GetUserSkills(rows: seq<SkillRow>, userId: nat): (r: Option<SkillVector>)
    ensures r.None? <==> forall i :: 0 <= i < |rows| ==> rows[i].userId != userId
    ensures r.Some? ==> exists i :: 0 <= i < |rows| && rows[i].userId == userId && rows[i].skills == r.value
  {
    match FirstWhere(rows, RowOf(userId))
    case None => None
    case Some(k) => Some(rows[k].skills)
  }

  /** `get_user_stats`: all attempts of the user, and the successful ones among them. */
  function GetUserStats(attempts: seq<Attempt>, userId: nat): (r: Stats)
    ensures r.total == |set i | 0 <= i < |attempts| && attempts[i].userId == userId|
    ensures r.success == |set i | 0 <= i < |attempts| && attempts[i].userId == userId && attempts[i].success|
    ensures r.success <= r.total <= |attempts|
    ensures r.total == 0 <==> forall i :: 0 <= i < |attempts| ==> attempts[i].userId != userId
    ensures r.success == 0 <==> forall i :: 0 <= i < |attempts| ==> !(attempts[i].userId == userId && attempts[i].success)
  {
    CountMonotone(attempts, SuccessBy(userId), ByUser(userId));
    UserAttemptPositions(attempts, userId);
    Stats(CountWhere(attempts, ByUser(userId)), CountWhere(attempts, SuccessBy(userId)))
  }

  /** The two counts of `get_user_stats` are numbers of log positions. */
  lemma UserAttemptPositions(attempts: seq<Attempt>, userId: nat)
    ensures CountWhere(attempts, ByUser(userId)) == |set i | 0 <= i < |attempts| && attempts[i].userId == userId|
    ensures CountWhere(attempts, SuccessBy(userId)) ==
      |set i | 0 <= i < |attempts| && attempts[i].userId == userId && attempts[i].success|
  {
    CountIsMatchingPositions(attempts, ByUser(userId));
    assert Positions(attempts, ByUser(userId)) == set i | 0 <= i < |attempts| && attempts[i].userId == userId;
    CountIsMatchingPositions(attempts, SuccessBy(userId));
    assert Positions(attempts, SuccessBy(userId)) ==
      set i | 0 <= i < |attempts| && attempts[i].userId == userId && attempts[i].success;
  }

  /** The progress entry of one attempt. */
  function ProgressOf(a: Attempt): ProgressEntry {
    ProgressEntry(a.timestamp, a.sessionId, a.rewards)
  }

  function AttemptTime(a: Attempt): int { a.timestamp }

  /** `get_user_progress_data`: the user's successful attempts in time order. */
  function GetUserProgressData(attempts: seq<Attempt>, userId: nat): (r: seq<ProgressEntry>)
    ensures |r| == CountWhere(attempts, SuccessBy(userId))
    ensures forall k :: 0 <= k < |r| ==> exists i :: (0 <= i < |attempts| &&
      attempts[i].userId == userId && attempts[i].success && r[k] == ProgressOf(attempts[i]))
  {
    var rows := FilterWhere(attempts, SuccessBy(userId));
    CountIsFilterLength(attempts, SuccessBy(userId));
    Column(rows, ProgressOf)
  }

  /** The entry of the successful attempt at position `j` is numbered by the user's successes
      before it; when the log is in time order, so are the entries. */
  lemma ProgressDataInOrder(attempts: seq<Attempt>, userId: nat)
    ensures forall j | 0 <= j < |attempts| && attempts[j].userId == userId && attempts[j].success ::
      CountWhere(attempts[..j], SuccessBy(userId)) < |GetUserProgressData(attempts, userId)| &&
      GetUserProgressData(attempts, userId)[CountWhere(attempts[..j], SuccessBy(userId))] == ProgressOf(attempts[j])
    ensures (forall i, j :: 0 <= i <= j < |attempts| ==> attempts[i].timestamp <= attempts[j].timestamp) ==>
      forall k, l :: 0 <= k <= l < |GetUserProgressData(attempts, userId)| ==>
        GetUserProgressData(attempts, userId)[k].timestamp <= GetUserProgressData(attempts, userId)[l].timestamp
  {
    FilterWhereInOrder(attempts, SuccessBy(userId));
    FilterKeepsOrder(attempts, SuccessBy(userId), AttemptTime);
  }

  // ---------------------------------------------------------------- sessions

  const UnknownSession: string := "unknown"

  /** The distinct session ids among the user's attempts, in order of first appearance. */
  function UserSessionIds(attempts: seq<Attempt>, userId: nat): seq<string> {
    Distinct(Column(FilterWhere(attempts, ByUser(userId)), SessionIdOf))
  }

  /** The attempts of one session, of any user, in time order. */
  function SessionAttempts(attempts: seq<Attempt>, sessionId: string): seq<Attempt> {
    FilterWhere(attempts, InSession(sessionId))
  }

  function AnySuccess(atts: seq<Attempt>): bool {
    exists i :: 0 <= i < |atts| && atts[i].success
  }

  function Summarize(sessionId: string, atts: seq<Attempt>): SessionSummary
    requires atts != []
  {
    SessionSummary(sessionId, atts[0].timestamp, atts[0].code, AnySuccess(atts), |atts|)
  }

  /** The entries the session loop appends, before sorting: one per id that is not "unknown"
      and has attempts. */
  function Summaries(attempts: seq<Attempt>, ids: seq<string>): seq<SessionSummary> {
    if ids == [] then []
    else
      var sid := ids[|ids| - 1];
      var atts := SessionAttempts(attempts, sid);
      Summaries(attempts, ids[..|ids| - 1]) +
        (if sid == UnknownSession || atts == [] then [] else [Summarize(sid, atts)])
  }

  function StartTime(s: SessionSummary): real { s.timestamp as real }

  /** The session loop of `get_user_sessions`: one summary per id that is not "unknown" and
      has attempts, in the order of the ids. */
  method CollectSummaries(attempts: seq<Attempt>, ids: seq<string>) returns (found: seq<SessionSummary>)
    ensures found == Summaries(attempts, ids)
  {
    found := [];
    for i := 0 to |ids|
      invariant found == Summaries(attempts, ids[..i])
    {
      assert ids[..i + 1][..i] == ids[..i];
      var sid := ids[i];
      if sid == UnknownSession {
        continue;
      }
      var atts := SessionAttempts(attempts, sid);
      if atts == [] {
        continue;
      }
      var isSolved := AnySuccess(atts);
      found := found + [SessionSummary(sid, atts[0].timestamp, atts[0].code, isSolved, |atts|)];
    }
    assert ids[..|ids|] == ids;
  }

  /** `get_user_sessions`: the session loop, then the sort on the first timestamp, newest first. */
  method GetUserSessions(attempts: seq<Attempt>, userId: nat) returns (sessions: seq<SessionSummary>)
    ensures SortedDesc(sessions, StartTime)
    ensures SameOrderPerKey(sessions, Summaries(attempts, UserSessionIds(attempts, userId)), StartTime)
    ensures multiset(sessions) == multiset(Summaries(attempts, UserSessionIds(attempts, userId)))
    ensures forall a, b :: 0 <= a < b < |sessions| ==> sessions[a].sessionId != sessions[b].sessionId
  {
    var ids := UserSessionIds(attempts, userId);
    var found := CollectSummaries(attempts, ids);
    sessions := SortDesc(found, StartTime);
    UserSessionIdsFacts(attempts, userId, UnknownSession);
    SummariesUnique(attempts, ids);
    PermutationKeepsDistinctKeys(sessions, found, SummaryId);
  }

  function SummaryId(s: SessionSummary): string { s.sessionId }

  /** Distinct ids give summaries with distinct session ids. */
  lemma {:induction false} SummariesUnique(attempts: seq<Attempt>, ids: seq<string>)
    requires NoDuplicates(ids)
    ensures DistinctKeys(Summaries(attempts, ids), SummaryId)
    decreases |ids|
  {
    if ids != [] {
      var n := |ids| - 1;
      var pre := Summaries(attempts, ids[..n]);
      assert NoDuplicates(ids[..n]);
      SummariesUnique(attempts, ids[..n]);
      forall k | 0 <= k < |pre| ensures pre[k].sessionId != ids[n] {
        SummariesAreSessions(attempts, ids[..n], k);
      }
    }
  }

  /** Every summary describes a real session of the attempt log, read off the whole log: the
      id is not "unknown", the start and the initial code are those of the session's first
      attempt, it is solved exactly when some attempt of that id succeeded, and the count is
      the number of attempts with that id. */
  lemma {:induction false} SummariesAreSessions(attempts: seq<Attempt>, ids: seq<string>, k: nat)
    requires k < |Summaries(attempts, ids)|
    ensures var e := Summaries(attempts, ids)[k];
      e.sessionId in ids && e.sessionId != UnknownSession &&
      FirstWhere(attempts, InSession(e.sessionId)).Some? &&
      var first := attempts[FirstWhere(attempts, InSession(e.sessionId)).value];
      e.timestamp == first.timestamp && e.initialCode == first.code &&
      (e.solved <==> exists i :: 0 <= i < |attempts| && attempts[i].sessionId == e.sessionId && attempts[i].success) &&
      e.attemptsCount == CountWhere(attempts, InSession(e.sessionId))
    decreases |ids|
  {
    var n := |ids| - 1;
    var pre := Summaries(attempts, ids[..n]);
    if k < |pre| {
      SummariesAreSessions(attempts, ids[..n], k);
      assert ids[..n][..] <= ids;
      var e := pre[k];
      assert e.sessionId in ids by {
        var j :| 0 <= j < n && ids[..n][j] == e.sessionId;
        assert ids[j] == e.sessionId;
      }
    } else {
      var sid := ids[n];
      var atts := SessionAttempts(attempts, sid);
      FilterHeadIsFirst(attempts, InSession(sid));
      CountIsFilterLength(attempts, InSession(sid));
      var e := Summaries(attempts, ids)[k];
      assert e == Summarize(sid, atts);
      if e.solved {
        var j :| 0 <= j < |atts| && atts[j].success;
        assert InSession(sid)(atts[j]);
      }
      if exists i :: 0 <= i < |attempts| && attempts[i].sessionId == sid && attempts[i].success {
        var i :| 0 <= i < |attempts| && attempts[i].sessionId == sid && attempts[i].success;
        assert InSession(sid)(attempts[i]);
        assert attempts[i] in atts;
      }
    }
  }

  /** Every session id of the user other than "unknown" gets a summary. */
  /** Dropping the last id keeps the summaries before it. */
  lemma SummariesPrefix(attempts: seq<Attempt>, ids: seq<string>, k: nat)
    requires ids != [] && k < |Summaries(attempts, ids[..|ids| - 1])|
    ensures k < |Summaries(attempts, ids)|
    ensures Summaries(attempts, ids)[k] == Summaries(attempts, ids[..|ids| - 1])[k]
  {
  }

  /** The last id, when it names a session with attempts, gets the last summary. */
  lemma LastIdSummarised(attempts: seq<Attempt>, ids: seq<string>, i: nat)
    requires ids != [] && ids[|ids| - 1] != UnknownSession
    requires i < |attempts| && attempts[i].sessionId == ids[|ids| - 1]
    ensures |Summaries(attempts, ids)| == |Summaries(attempts, ids[..|ids| - 1])| + 1
    ensures Summaries(attempts, ids)[|Summaries(attempts, ids)| - 1].sessionId == ids[|ids| - 1]
  {
    var sid := ids[|ids| - 1];
    assert InSession(sid)(attempts[i]);
    assert SessionAttempts(attempts, sid) != [];
  }

  lemma {:induction false} SessionsAreSummarised(attempts: seq<Attempt>, ids: seq<string>, sid: string)
    requires sid in ids && sid != UnknownSession
    requires exists i :: 0 <= i < |attempts| && attempts[i].sessionId == sid
    ensures exists k :: 0 <= k < |Summaries(attempts, ids)| && Summaries(attempts, ids)[k].sessionId == sid
    decreases |ids|
  {
    var n := |ids| - 1;
    var i :| 0 <= i < |attempts| && attempts[i].sessionId == sid;
    if ids[n] == sid {
      LastIdSummarised(attempts, ids, i);
    } else {
      assert sid in ids[..n] by {
        var j :| 0 <= j < |ids| && ids[j] == sid;
        assert ids[..n][j] == sid;
      }
      SessionsAreSummarised(attempts, ids[..n], sid);
      var pre := Summaries(attempts, ids[..n]);
      var k :| 0 <= k < |pre| && pre[k].sessionId == sid;
      SummariesPrefix(attempts, ids, k);
    }
  }

  /** The session ids of the user are exactly the ids of the user's attempts, each once. */
  lemma UserSessionIdsFacts(attempts: seq<Attempt>, userId: nat, sid: string)
    ensures NoDuplicates(UserSessionIds(attempts, userId))
    ensures sid in UserSessionIds(attempts, userId) <==>
      exists i :: 0 <= i < |attempts| && attempts[i].userId == userId && attempts[i].sessionId == sid
  {
    var rows := FilterWhere(attempts, ByUser(userId));
    var col := Column(rows, SessionIdOf);
    if exists i :: 0 <= i < |attempts| && attempts[i].userId == userId && attempts[i].sessionId == sid {
      var i :| 0 <= i < |attempts| && attempts[i].userId == userId && attempts[i].sessionId == sid;
      assert ByUser(userId)(attempts[i]);
      var j :| 0 <= j < |rows| && rows[j] == attempts[i];
      assert col[j] == sid;
    }
    if sid in UserSessionIds(attempts, userId) {
      var j :| 0 <= j < |col| && col[j] == sid;
      assert ByUser(userId)(rows[j]);
      var i :| 0 <= i < |attempts| && attempts[i] == rows[j];
    }
  }

  // ---------------------------------------------------------------- writes

  /** `session_id or "unknown"` */
  function SessionIdOrUnknown(sessionId: Option<string>): string {
    match sessionId
    case Some(s) => if s == "" then UnknownSession else s
    case None => UnknownSession
  }

  /** `json.dumps(rewards) if rewards else "{}"`, decoded again. */
  function StoredRewards(rewards: Option<map<string, real>>): map<string, real> {
    match rewards
    case Some(r) => r
    case None => map[]
  }

  /** The three tables with the invariants their writes keep: user ids count up from 1,
      usernames are unique, user `i + 1` owns skill row `i`, and the attempt log is in time
      order. */
  class Store {
    var users: seq<User>
    var skillRows: seq<SkillRow>
    var attempts: seq<Attempt>

    ghost predicate Valid()
      reads this
    {
      (forall i :: 0 <= i < |users| ==> users[i].id == i + 1) &&
      (forall i, j :: 0 <= i < j < |users| ==> users[i].username != users[j].username) &&
      |skillRows| == |users| &&
      (forall i :: 0 <= i < |skillRows| ==> skillRows[i].userId == i + 1) &&
      (forall i, j :: 0 <= i < j < |attempts| ==> attempts[i].timestamp <= attempts[j].timestamp)
    }

    /** `init_db` on a fresh database file. */
    constructor ()
      ensures Valid()
      ensures users == [] && skillRows == [] && attempts == []
    {
      users := [];
      skillRows := [];
      attempts := [];
    }

    /** `register_user`: refuses a taken username and changes nothing; otherwise adds the user,
        with the password's hash, and a skill row with every skill at 0.0. */
    method Register(username: string, password: string, displayName: string) returns (ok: bool, message: string)
      requires Valid()
      modifies this
      ensures Valid()
      ensures ok <==> forall i :: 0 <= i < |old(users)| ==> old(users)[i].username != username
      ensures !ok ==> (message == "Username already exists." &&
        users == old(users) && skillRows == old(skillRows) && attempts == old(attempts))
      ensures ok ==> (message == "Registration successful!" &&
        users == old(users) + [User(|old(users)| + 1, username, HashPass(password), displayName)] &&
        skillRows == old(skillRows) + [SkillRow(|old(users)| + 1, NoSkills)] &&
        attempts == old(attempts))
    {
      if FirstWhere(users, HasUsername(username)).Some? {
        return false, "Username already exists.";
      }
      var newId := |users| + 1;
      users := users + [User(newId, username, HashPass(password), displayName)];
      skillRows := skillRows + [SkillRow(newId, NoSkills)];
      return true, "Registration successful!";
    }

    /** `log_attempt`: appends one attempt, with "unknown" for a missing session id and no
        rewards for missing or empty ones. The clock never runs backwards. */
    method LogAttempt(userId: nat, snippetId: string, code: string, success: bool,
                      sessionId: Option<string>, rewards: Option<map<string, real>>, now: int)
      requires Valid()
      requires forall i :: 0 <= i < |attempts| ==> attempts[i].timestamp <= now
      modifies this
      ensures Valid()
      ensures attempts == old(attempts) +
        [Attempt(userId, SessionIdOrUnknown(sessionId), snippetId, code, success, StoredRewards(rewards), now)]
      ensures users == old(users) && skillRows == old(skillRows)
    {
      attempts := attempts + [Attempt(userId, SessionIdOrUnknown(sessionId), snippetId, code, success, StoredRewards(rewards), now)];
    }

    /** `update_user_skills`: assigns exactly the skills named in `updates` on the user's
        first skill row, and does nothing when the user has none. */
    method UpdateUserSkills(userId: nat, updates: map<string, real>)
      requires Valid()
      modifies this
      ensures Valid()
      ensures users == old(users) && attempts == old(attempts)
      ensures match FirstWhere(old(skillRows), RowOf(userId))
        case None => skillRows == old(skillRows)
        case Some(k) => skillRows == old(skillRows)[k := SkillRow(userId, WithUpdates(old(skillRows)[k].skills, updates))]
    {
      var found := FirstWhere(skillRows, RowOf(userId));
      if found.Some? {
        var k := found.value;
        var v := skillRows[k].skills;
        if "Loops" in updates { v := v.(loops := updates["Loops"]); }
        if "Recursion" in updates { v := v.(recursion := updates["Recursion"]); }
        if "Syntax" in updates { v := v.(syntax := updates["Syntax"]); }
        if "Logic" in updates { v := v.(logic := updates["Logic"]); }
        if "Data_Structures" in updates { v := v.(dataStructures := updates["Data_Structures"]); }
        skillRows := skillRows[k := SkillRow(userId, v)];
      }
    }
  }

  /** After an update, reading the skills back gives the updated values for the named skills
      and the old values for the others. */
  lemma UpdateThenRead(rows: seq<SkillRow>, userId: nat, updates: map<string, real>, k: nat, name: string)
    requires FirstWhere(rows, RowOf(userId)) == Some(k)
    requires IsSkillName(name)
    ensures var rows' := rows[k := SkillRow(userId, WithUpdates(rows[k].skills, updates))];
      GetUserSkills(rows', userId).Some? &&
      GetUserSkills(rows', userId).value.Get(name) == GetOr(updates, name, GetUserSkills(rows, userId).value.Get(name))
  {
    var rows' := rows[k := SkillRow(userId, WithUpdates(rows[k].skills, updates))];
    assert forall i :: 0 <= i < k ==> rows'[i] == rows[i];
    FirstWhereAt(rows', RowOf(userId), k);
  }
}
