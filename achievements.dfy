/** The achievement catalogue and `checkAchievements`' evaluation of it. */
module Achievements {
  import opened Wrappers
  import opened Seqs

  /** What unlocks an entry: a level threshold or a score threshold. */
  datatype Goal = ReachLevel(level: nat) | ReachScore(score: nat)

  datatype Achievement = Achievement(id: string, goal: Goal, name: string, desc: string)

  /** The fixed catalogue: ten level thresholds, then three score thresholds. */
  const Catalogue: seq<Achievement> := [
    Achievement("first_twist", ReachLevel(5), "Mind Bender", "Survive your first color twist"),
    Achievement("level_10", ReachLevel(10), "Rising Star", "Reach level 10"),
    Achievement("level_15", ReachLevel(15), "Memory Master", "Reach level 15"),
    Achievement("level_20", ReachLevel(20), "Legendary", "Reach level 20"),
    Achievement("level_25", ReachLevel(25), "Unstoppable", "Reach level 25"),
    Achievement("level_30", ReachLevel(30), "Elite Player", "Reach level 30"),
    Achievement("level_35", ReachLevel(35), "Hyperspeed Hero", "Survive hyperspeed mode"),
    Achievement("level_40", ReachLevel(40), "Vision Master", "Conquer color blind mode"),
    Achievement("level_45", ReachLevel(45), "Almost Impossible", "Reach level 45"),
    Achievement("level_50", ReachLevel(50), "COLOR MEMORY CHAMPION", "Complete all 50 levels!"),
    Achievement("score_1000", ReachScore(1000), "Point Collector", "Score 1000+ points"),
    Achievement("score_5000", ReachScore(5000), "High Scorer", "Score 5000+ points"),
    Achievement("score_10000", ReachScore(10000), "Score Legend", "Score 10000+ points")
  ]

  function Ids(s: seq<Achievement>): (r: seq<string>)
    ensures |r| == |s| && forall i :: 0 <= i < |s| ==> r[i] == s[i].id
  {
    seq(|s|, i requires 0 <= i < |s| => s[i].id)
  }

  lemma CatalogueShape()
    ensures |Catalogue| == 13
    ensures forall i :: 0 <= i < 10 ==> Catalogue[i].goal.ReachLevel?
    ensures forall i :: 10 <= i < 13 ==> Catalogue[i].goal.ReachScore?
    ensures Distinct(Ids(Catalogue))
  {
  }

  /** An entry's threshold is met. A zero threshold counts as absent, as a falsy
      `level` or `score` field does. */
  predicate Qualifies(a: Achievement, level: int, score: int) {
    match a.goal
    case ReachLevel(n) => n != 0 && level >= n
    case ReachScore(n) => n != 0 && score >= n
  }

  /** The entries one pass over `cat` unlocks, in catalogue order: an entry is taken when its
      id is not yet earned (counting ids taken earlier in the same pass) and it qualifies. */
  function Unlocked(earned: seq<string>, cat: seq<Achievement>, level: int, score: int): (r: seq<Achievement>)
    ensures forall a :: a in r ==> a in cat && a.id !in earned && Qualifies(a, level, score)
    decreases |cat|
  {
    if cat == [] then []
    else
      var a := cat[0];
      if a.id !in earned && Qualifies(a, level, score) then
        [a] + Unlocked(earned + [a.id], cat[1..], level, score)
      else
        Unlocked(earned, cat[1..], level, score)
  }

  /** The earned list after one pass: the new ids appended after the old ones. */
  function Evaluate(earned: seq<string>, cat: seq<Achievement>, level: int, score: int): seq<string> {
    earned + Ids(Unlocked(earned, cat, level, score))
  }

  /** One step of the pass: the pass over `cat` is the pass over its tail, started from the
      list the head leaves behind. */
  lemma EvaluateStep(earned: seq<string>, cat: seq<Achievement>, level: int, score: int)
    requires cat != []
    ensures var a := cat[0];
      var next := if a.id !in earned && Qualifies(a, level, score) then earned + [a.id] else earned;
      Evaluate(earned, cat, level, score) == Evaluate(next, cat[1..], level, score)
  {
    var a := cat[0];
    if a.id !in earned && Qualifies(a, level, score) {
      var rest := Unlocked(earned + [a.id], cat[1..], level, score);
      assert Ids([a] + rest) == [a.id] + Ids(rest);
    }
  }

  /** The loop of `checkAchievements` over `cat`: `ids` is the earned list it leaves and
      `unlocked` the entries it took, in the order it took them. */
  method CheckPass(earned: seq<string>, cat: seq<Achievement>, level: int, score: int)
    returns (ids: seq<string>, unlocked: seq<Achievement>)
    ensures ids == Evaluate(earned, cat, level, score)
    ensures unlocked == Unlocked(earned, cat, level, score)
  {
    ids := earned;
    unlocked := [];
    var i := 0;
    while i < |cat|
      invariant 0 <= i <= |cat|
      invariant Evaluate(ids, cat[i..], level, score) == Evaluate(earned, cat, level, score)
      invariant unlocked + Unlocked(ids, cat[i..], level, score) == Unlocked(earned, cat, level, score)
    {
      var achievement := cat[i];
      EvaluateStep(ids, cat[i..], level, score);
      assert cat[i..][1..] == cat[i + 1..];
      if achievement.id !in ids {
        var isEarned := false;
        match achievement.goal {
          case ReachLevel(n) =>
            if n != 0 && level >= n { isEarned := true; }
          case ReachScore(n) =>
            if n != 0 && score >= n { isEarned := true; }
        }
        if isEarned {
          ids := ids + [achievement.id];
          unlocked := unlocked + [achievement];
        }
      }
      i := i + 1;
    }
    assert cat[i..] == [];
  }

  /** The list only grows: the old ids stay in place at the front. */
  lemma EvaluateExtends(earned: seq<string>, cat: seq<Achievement>, level: int, score: int)
    ensures earned <= Evaluate(earned, cat, level, score)
  {
  }

  /** An id ends up earned exactly when it was earned already or some catalogue entry with
      that id qualifies. */
  lemma {:induction false} EvaluateMembership(earned: seq<string>, cat: seq<Achievement>, level: int, score: int, x: string)
    ensures x in Evaluate(earned, cat, level, score) <==>
      x in earned || exists a :: a in cat && a.id == x && Qualifies(a, level, score)
    decreases |cat|
  {
    if cat == [] {
      assert Evaluate(earned, cat, level, score) == earned;
    } else {
      var a := cat[0];
      var next := if a.id !in earned && Qualifies(a, level, score) then earned + [a.id] else earned;
      EvaluateStep(earned, cat, level, score);
      EvaluateMembership(next, cat[1..], level, score, x);
      assert cat == [a] + cat[1..];
      if exists b :: b in cat && b.id == x && Qualifies(b, level, score) {
        var b :| b in cat && b.id == x && Qualifies(b, level, score);
        if b != a { assert b in cat[1..]; }
      }
    }
  }

  /** Starting from a list without repeats, a pass never produces a repeat. */
  lemma {:induction false} EvaluateDistinct(earned: seq<string>, cat: seq<Achievement>, level: int, score: int)
    requires Distinct(earned)
    ensures Distinct(Evaluate(earned, cat, level, score))
    decreases |cat|
  {
    if cat == [] {
      assert Evaluate(earned, cat, level, score) == earned;
    } else {
      var a := cat[0];
      EvaluateStep(earned, cat, level, score);
      if a.id !in earned && Qualifies(a, level, score) {
        var next := earned + [a.id];
        assert Distinct(next) by {
          forall i, j | 0 <= i < j < |next| ensures next[i] != next[j] {
            if j == |earned| { assert next[i] == earned[i]; }
          }
        }
        EvaluateDistinct(next, cat[1..], level, score);
      } else {
        EvaluateDistinct(earned, cat[1..], level, score);
      }
    }
  }

  /** A pass over entries that are all earned or unmet unlocks nothing. */
  lemma {:induction false} NothingLeftToUnlock(earned: seq<string>, cat: seq<Achievement>, level: int, score: int)
    requires forall a :: a in cat && Qualifies(a, level, score) ==> a.id in earned
    ensures Unlocked(earned, cat, level, score) == []
    decreases |cat|
  {
    if cat != [] {
      assert forall a :: a in cat[1..] ==> a in cat;
      NothingLeftToUnlock(earned, cat[1..], level, score);
    }
  }

  /** A second pass with the same level and score adds nothing. */
  lemma EvaluateIdempotent(earned: seq<string>, cat: seq<Achievement>, level: int, score: int)
    ensures var once := Evaluate(earned, cat, level, score);
      Unlocked(once, cat, level, score) == [] && Evaluate(once, cat, level, score) == once
  {
    var once := Evaluate(earned, cat, level, score);
    forall a | a in cat && Qualifies(a, level, score) ensures a.id in once {
      EvaluateMembership(earned, cat, level, score, a.id);
    }
    NothingLeftToUnlock(once, cat, level, score);
  }

  /** Reaching level 50 with no points earns `level_50` but leaves `score_1000` as it was. */
  lemma LevelFiftyWithoutPoints(earned: seq<string>)
    ensures "level_50" in Evaluate(earned, Catalogue, 50, 0)
    ensures "score_1000" in Evaluate(earned, Catalogue, 50, 0) <==> "score_1000" in earned
  {
    EvaluateMembership(earned, Catalogue, 50, 0, "level_50");
    assert Catalogue[9].id == "level_50" && Qualifies(Catalogue[9], 50, 0);
    EvaluateMembership(earned, Catalogue, 50, 0, "score_1000");
    CatalogueShape();
    forall a | a in Catalogue && a.id == "score_1000" ensures !Qualifies(a, 50, 0) {
      var i :| 0 <= i < |Catalogue| && Catalogue[i] == a;
      assert Ids(Catalogue)[i] == "score_1000" == Ids(Catalogue)[10];
    }
  }

  /** Below the first thresholds (level 5, score 1000) nothing unlocks. */
  lemma NothingBeforeFirstThreshold(earned: seq<string>, level: int, score: int)
    requires level < 5 && score < 1000
    ensures Evaluate(earned, Catalogue, level, score) == earned
  {
    forall a | a in Catalogue ensures !Qualifies(a, level, score) {
      var i :| 0 <= i < |Catalogue| && Catalogue[i] == a;
    }
    NothingLeftToUnlock(earned, Catalogue, level, score);
  }

  /** `getAchievementData`: the first catalogue entry with that id. */
  function Find(cat: seq<Achievement>, id: string): (r: Option<Achievement>)
    ensures r.Some? ==> r.value in cat && r.value.id == id
    ensures r.None? <==> forall a :: a in cat ==> a.id != id
  {
    if cat == [] then None
    else if cat[0].id == id then Some(cat[0])
    else Find(cat[1..], id)
  }

  /** Every catalogue id is found, and finds its own entry. */
  lemma FindCatalogue(i: nat)
    requires i < |Catalogue|
    ensures Find(Catalogue, Catalogue[i].id) == Some(Catalogue[i])
  {
    CatalogueShape();
    var r := Find(Catalogue, Catalogue[i].id);
    var j :| 0 <= j < |Catalogue| && Catalogue[j] == r.value;
    assert Ids(Catalogue)[i] == Ids(Catalogue)[j];
  }
}
