/** The five-dimensional skill vector kept per user, and the dictionary operations the tutor
    applies to it: ordered items, key lookup with default, partial update and sum. */
module Skills {

  /** The skill names, in the order in which the store builds its dictionary. */
  const SkillNames: seq<string> := ["Loops", "Recursion", "Syntax", "Logic", "Data_Structures"]

  predicate IsSkillName(name: string) {
    name == "Loops" || name == "Recursion" || name == "Syntax" || name == "Logic" || name == "Data_Structures"
  }

  lemma SkillNamesAreTheSkills(name: string)
    ensures IsSkillName(name) <==> name in SkillNames
  {
  }

  datatype SkillVector = SkillVector(loops: real, recursion: real, syntax: real, logic: real, dataStructures: real)
  {
    /** The value stored under `name`; 0.0 for a name that is not a skill. */
    function Get(name: string): real {
      if name == "Loops" then loops
      else if name == "Recursion" then recursion
      else if name == "Syntax" then syntax
      else if name == "Logic" then logic
      else if name == "Data_Structures" then dataStructures
      else 0.0
    }

    /** Replaces the value of one skill; a name that is not a skill changes nothing. */
    function Set(name: string, v: real): (w: SkillVector)
      ensures forall n :: IsSkillName(n) ==> w.Get(n) == if n == name then v else Get(n)
    {
      if name == "Loops" then this.(loops := v)
      else if name == "Recursion" then this.(recursion := v)
      else if name == "Syntax" then this.(syntax := v)
      else if name == "Logic" then this.(logic := v)
      else if name == "Data_Structures" then this.(dataStructures := v)
      else this
    }

    /** The dictionary `{"Loops": ..., ..., "Data_Structures": ...}` as ordered items. */
    function Items(): (items: seq<(string, real)>)
      ensures |items| == |SkillNames|
      ensures forall i :: 0 <= i < |items| ==> items[i] == (SkillNames[i], Get(SkillNames[i]))
    {
      [("Loops", loops), ("Recursion", recursion), ("Syntax", syntax), ("Logic", logic),
       ("Data_Structures", dataStructures)]
    }

    /** The same dictionary, unordered. */
    function AsMap(): (m: map<string, real>)
      ensures forall n :: n in m <==> IsSkillName(n)
      ensures forall n :: n in m ==> m[n] == Get(n)
    {
      map["Loops" := loops, "Recursion" := recursion, "Syntax" := syntax, "Logic" := logic,
          "Data_Structures" := dataStructures]
    }

    function Total(): real {
      loops + recursion + syntax + logic + dataStructures
    }
  }

  /** The row a new user starts with: every column defaults to 0.0. */
  const NoSkills := SkillVector(0.0, 0.0, 0.0, 0.0, 0.0)

  /** Python's `d.get(k, default)` on a map. */
  function GetOr(d: map<string, real>, k: string, default: real): real {
    if k in d then d[k] else default
  }

  /** Sets exactly the skills whose names are keys of `updates`; every other skill keeps its
      value, and keys that are not skills are ignored. */
  function WithUpdates(v: SkillVector, updates: map<string, real>): (w: SkillVector)
    ensures forall n :: IsSkillName(n) ==> w.Get(n) == GetOr(updates, n, v.Get(n))
  {
    SkillVector(GetOr(updates, "Loops", v.loops), GetOr(updates, "Recursion", v.recursion),
                GetOr(updates, "Syntax", v.syntax), GetOr(updates, "Logic", v.logic),
                GetOr(updates, "Data_Structures", v.dataStructures))
  }

  /** Python's `int(x)` on a float: truncation toward zero. */
  function Truncate(x: real): (r: int)
    ensures x >= 0.0 ==> r as real <= x < r as real + 1.0
    ensures x < 0.0 ==> r as real - 1.0 < x <= r as real
  {
    if x >= 0.0 then x.Floor else -((-x).Floor)
  }

  /** The value of a dictionary item, the `key=d.get` of `max` and `min`. */
  function ItemValue(e: (string, real)): real { e.1 }

  /** Python's `sum(d.values())`. */
  function SumValues(items: seq<(string, real)>): real {
    if items == [] then 0.0 else SumValues(items[..|items| - 1]) + items[|items| - 1].1
  }

  lemma {:induction false} SumNonNegative(items: seq<(string, real)>)
    requires forall i :: 0 <= i < |items| ==> items[i].1 >= 0.0
    ensures SumValues(items) >= 0.0
    decreases |items|
  {
    if items != [] {
      SumNonNegative(items[..|items| - 1]);
    }
  }

  lemma SumOfItemsIsTotal(v: SkillVector)
    ensures SumValues(v.Items()) == v.Total()
  {
    var it := v.Items();
    assert it[..4][..3][..2][..1][..0] == [];
    assert SumValues(it[..1]) == v.loops;
    assert SumValues(it[..2]) == v.loops + v.recursion by { assert it[..2][..1] == it[..1]; }
    assert SumValues(it[..3]) == v.loops + v.recursion + v.syntax by { assert it[..3][..2] == it[..2]; }
    assert SumValues(it[..4]) == v.loops + v.recursion + v.syntax + v.logic by { assert it[..4][..3] == it[..3]; }
    assert it[..5] == it;
  }

  /** Two vectors that agree on every skill are equal. */
  lemma SkillVectorExt(a: SkillVector, b: SkillVector)
    requires forall n :: IsSkillName(n) ==> a.Get(n) == b.Get(n)
    ensures a == b
  {
    assert a.Get("Loops") == b.Get("Loops");
    assert a.Get("Recursion") == b.Get("Recursion");
    assert a.Get("Syntax") == b.Get("Syntax");
    assert a.Get("Logic") == b.Get("Logic");
    assert a.Get("Data_Structures") == b.Get("Data_Structures");
  }

  /** Adds each reward to the skill it names; a skill without a reward keeps its value and a
      reward for a name that is not a skill is dropped. */
  function AddRewards(v: SkillVector, rewards: map<string, real>): (w: SkillVector)
    ensures forall n :: IsSkillName(n) ==> w.Get(n) == v.Get(n) + GetOr(rewards, n, 0.0)
  {
    SkillVector(v.loops + GetOr(rewards, "Loops", 0.0), v.recursion + GetOr(rewards, "Recursion", 0.0),
                v.syntax + GetOr(rewards, "Syntax", 0.0), v.logic + GetOr(rewards, "Logic", 0.0),
                v.dataStructures + GetOr(rewards, "Data_Structures", 0.0))
  }

  predicate NonNegativeRewards(rewards: map<string, real>) {
    forall k :: k in rewards ==> rewards[k] >= 0.0
  }

  /** Non-negative rewards never lower a skill. */
  lemma AddRewardsNeverLowers(v: SkillVector, rewards: map<string, real>, name: string)
    requires NonNegativeRewards(rewards) && IsSkillName(name)
    ensures AddRewards(v, rewards).Get(name) >= v.Get(name)
  {
    assert GetOr(rewards, name, 0.0) >= 0.0;
  }

  /** Every skill of `a` is at most the same skill of `b`. */
  predicate AtMost(a: SkillVector, b: SkillVector) {
    a.loops <= b.loops && a.recursion <= b.recursion && a.syntax <= b.syntax &&
    a.logic <= b.logic && a.dataStructures <= b.dataStructures
  }

  lemma AtMostTransitive(a: SkillVector, b: SkillVector, c: SkillVector)
    requires AtMost(a, b) && AtMost(b, c)
    ensures AtMost(a, c)
  {
  }

  lemma AtMostGet(a: SkillVector, b: SkillVector, name: string)
    requires AtMost(a, b) && IsSkillName(name)
    ensures a.Get(name) <= b.Get(name)
  {
  }

  /** Non-negative rewards raise or keep every skill. */
  lemma AddRewardsGrows(v: SkillVector, rewards: map<string, real>)
    requires NonNegativeRewards(rewards)
    ensures AtMost(v, AddRewards(v, rewards))
  {
    assert GetOr(rewards, "Loops", 0.0) >= 0.0 && GetOr(rewards, "Recursion", 0.0) >= 0.0;
    assert GetOr(rewards, "Syntax", 0.0) >= 0.0 && GetOr(rewards, "Logic", 0.0) >= 0.0;
    assert GetOr(rewards, "Data_Structures", 0.0) >= 0.0;
  }

  /** The `for skill, points in rewards.items()` loop: the keys are visited in any order. */
  method AccumulateRewards(current: SkillVector, rewards: map<string, real>) returns (next: SkillVector)
    ensures next == AddRewards(current, rewards)
  {
    next := current;
    var pending := rewards.Keys;
    while pending != {}
      invariant pending <= rewards.Keys
      invariant forall n :: IsSkillName(n) ==>
        next.Get(n) == current.Get(n) + (if n in rewards && n !in pending then rewards[n] else 0.0)
      decreases |pending|
    {
      var skill :| skill in pending;
      if IsSkillName(skill) {
        next := next.Set(skill, next.Get(skill) + rewards[skill]);
      }
      pending := pending - {skill};
    }
    SkillVectorExt(next, AddRewards(current, rewards));
  }
}
