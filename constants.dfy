// frontend/constants.ts: game constants, the level formulas, the daily quest
// templates, the shop catalogue, the achievement conditions, random unit
// generation and level lookup. The lesson content of the curriculum is data
// and is passed in as a parameter; the random choices of generateRandomUnit
// are parameters too.

module Constants {
  import opened Types
  import opened Text

  const MaxHearts: int := 5
  const HeartRefillTimeMs: int := 35 * 60 * 1000
  const BaseXpPerQuestion: nat := 10
  const ComboBonusMultiplier: nat := 2
  const PerfectLessonBonus: nat := 20

  /** `calculateXpForNextLevel`: 100 times the square of the level. */
  function XpForNextLevel(level: int): (r: int)
    ensures r >= 0
  {
    100 * level * level
  }

  lemma XpForNextLevelStep(k: nat)
    ensures XpForNextLevel(k + 1) == XpForNextLevel(k) + 200 * k + 100
  {
    calc {
      XpForNextLevel(k + 1);
      100 * (k + 1) * (k + 1);
      100 * (k * k + 2 * k + 1);
    }
  }

  /** The XP threshold grows with the level. */
  lemma {:induction false} XpForNextLevelMonotone(a: nat, b: nat)
    requires a <= b
    decreases b - a
    ensures XpForNextLevel(a) <= XpForNextLevel(b)
  {
    if a < b {
      XpForNextLevelMonotone(a, b - 1);
      XpForNextLevelStep(b - 1);
    }
  }

  /** The least level above `k` whose threshold exceeds `xp`. */
  function LevelSearch(xp: nat, k: nat): (l: nat)
    requires XpForNextLevel(k) <= xp
    decreases xp - XpForNextLevel(k)
    ensures l > k && XpForNextLevel(l - 1) <= xp < XpForNextLevel(l)
  {
    XpForNextLevelStep(k);
    if XpForNextLevel(k + 1) <= xp then LevelSearch(xp, k + 1) else k + 1
  }

  /** `calculateLevel`, `floor(sqrt(xp / 100)) + 1`, by its integer characterisation:
      the level l with `100 (l - 1)^2 <= xp < 100 l^2`. */
  function CalculateLevel(xp: nat): (l: nat)
    ensures l >= 1
    ensures XpForNextLevel(l - 1) <= xp < XpForNextLevel(l)
  {
    LevelSearch(xp, 0)
  }

  /** A new player starts at level 1. */
  lemma CalculateLevelZero()
    ensures CalculateLevel(0) == 1
  {
  }

  /** `calculateLevel(xp) <= L` exactly when `xp` is below the threshold of level L. */
  lemma CalculateLevelBound(xp: nat, bound: nat)
    ensures CalculateLevel(xp) <= bound <==> xp < XpForNextLevel(bound)
  {
    var l := CalculateLevel(xp);
    if l <= bound {
      XpForNextLevelMonotone(l, bound);
    } else {
      XpForNextLevelMonotone(bound, l - 1);
    }
  }

  /** `calculateLevel(xp) - 1` is the largest k with `100 k^2 <= xp`. */
  lemma CalculateLevelIsLargest(xp: nat, k: nat)
    ensures XpForNextLevel(k) <= xp <==> k < CalculateLevel(xp)
  {
    CalculateLevelBound(xp, k);
  }

  /** More XP never means a lower level. */
  lemma CalculateLevelMonotone(x: nat, y: nat)
    requires x <= y
    ensures CalculateLevel(x) <= CalculateLevel(y)
  {
    CalculateLevelBound(x, CalculateLevel(y));
  }

  /** `DAILY_QUEST_TEMPLATES`. */
  const QuestTemplates: seq<QuestTemplate> := [
    QuestTemplate("q_less_1", "Complete 2 lições hoje", 2, 10, LessonQuest),
    QuestTemplate("q_xp_1", "Ganhe 50 XP hoje", 50, 15, XpQuest),
    QuestTemplate("q_perf_1", "Faça 1 lição perfeita", 1, 25, PerfectQuest),
    QuestTemplate("q_less_2", "Complete 3 lições hoje", 3, 20, LessonQuest),
    QuestTemplate("q_xp_2", "Ganhe 100 XP hoje", 100, 30, XpQuest)
  ]

  /** `SHOP_ITEMS`. The real-money prices of the subscription and the gem packs
      are kept in hundredths. */
  const ShopItems: seq<ShopItem> := [
    ShopItem("refill_hearts", "Recarregar Vidas", 350, Consumable, None),
    ShopItem("streak_freeze", "Congelar Ofensiva", 200, Consumable, None),
    ShopItem("premium_sub", "ProGres Super", 1999, Subscription, None),
    ShopItem("gems_small", "Punhado de Gemas", 499, CurrencyPack, Some(350)),
    ShopItem("gems_medium", "Saco de Gemas", 999, CurrencyPack, Some(1200))
  ]

  /** The ids of `ACHIEVEMENTS`, in declaration order. */
  const AchievementIds: seq<string> := ["first_step", "on_fire", "perfectionist", "xp_hunter", "rich"]

  /** The `condition` of each achievement, on the stats and the last lesson result. */
  predicate AchievementCondition(id: string, stats: UserStats, result: LessonResult) {
    if id == "first_step" then stats.lessonsCompleted >= 1
    else if id == "on_fire" then result.maxCombo >= 5
    else if id == "perfectionist" then result.mistakeCount == 0
    else if id == "xp_hunter" then stats.totalXP >= 500
    else if id == "rich" then stats.gems >= 1000
    else false
  }

  /** The random choices made for one generated level: the source level drawn
      from the curriculum and its question list after the shuffle. */
  datatype Draw = Draw(source: Level, shuffled: seq<Question>)

  /** A shuffle reorders the source level's questions and nothing else. */
  predicate IsShuffle(d: Draw) {
    multiset(d.shuffled) == multiset(d.source.questions)
  }

  function GeneratedQuestionId(q: Question, levelId: int): string {
    q.id + "_gen_" + IntToString(levelId)
  }

  /** `questions.map(q => ({ ...q, id: `${q.id}_gen_${levelId}` }))`. */
  function RenameQuestions(qs: seq<Question>, levelId: int): seq<Question> {
    seq(|qs|, k requires 0 <= k < |qs| => qs[k].(id := GeneratedQuestionId(qs[k], levelId)))
  }

  function Min(a: int, b: int): int {
    if a <= b then a else b
  }

  /** One generated level: the first three questions of the shuffle, renamed. */
  function GeneratedLevel(levelId: int, title: string, d: Draw): Level {
    Level(levelId, title, 3, 0, RenameQuestions(d.shuffled[..Min(3, |d.shuffled|)], levelId), d.source.learnableConcepts)
  }

  /** A generated level has the requested id, no stars, three announced questions
      and at most three real ones, each a question of the source level whose id
      ends in the level's suffix. */
  lemma GeneratedLevelSpec(levelId: int, title: string, d: Draw)
    requires IsShuffle(d)
    ensures var level := GeneratedLevel(levelId, title, d);
      && level.id == levelId && level.stars == 0 && level.totalQuestions == 3
      && |level.questions| == Min(3, |d.shuffled|) <= 3
      && level.learnableConcepts == d.source.learnableConcepts
      && forall k :: 0 <= k < |level.questions| ==>
        && d.shuffled[k] in d.source.questions
        && level.questions[k] == d.shuffled[k].(id := GeneratedQuestionId(d.shuffled[k], levelId))
        && EndsWith(level.questions[k].id, "_gen_" + IntToString(levelId))
  {
    var level := GeneratedLevel(levelId, title, d);
    var suffix := "_gen_" + IntToString(levelId);
    forall k | 0 <= k < |level.questions|
      ensures d.shuffled[k] in d.source.questions
      ensures EndsWith(level.questions[k].id, suffix)
    {
      var q := d.shuffled[k];
      assert q in multiset(d.shuffled);
      var qid := level.questions[k].id;
      assert qid == q.id + suffix;
      assert qid[|qid| - |suffix|..] == suffix;
    }
  }

  /** `generateRandomUnit`: three levels numbered from `startLevelId`, each built
      from up to three shuffled questions of a randomly drawn source level. */
  method GenerateRandomUnit(startUnitId: int, startLevelId: int, adjective: string, topic: string, draws: seq<Draw>)
    returns (unit: Unit)
    requires |draws| == 3
    requires forall j :: 0 <= j < 3 ==> IsShuffle(draws[j])
    ensures unit.id == startUnitId && |unit.levels| == 3
    ensures unit.title == "Unidade " + IntToString(startUnitId) + ": " + adjective + " " + topic
    ensures forall j :: 0 <= j < 3 ==>
      unit.levels[j] == GeneratedLevel(startLevelId + j, topic + " - Parte " + IntToString(j + 1), draws[j])
  {
    var levels: seq<Level> := [];
    for i := 0 to 3
      invariant |levels| == i
      invariant forall j :: 0 <= j < i ==>
        levels[j] == GeneratedLevel(startLevelId + j, topic + " - Parte " + IntToString(j + 1), draws[j])
    {
      var levelId := startLevelId + i;
      var d := draws[i];
      var questions := d.shuffled[..Min(3, |d.shuffled|)];
      levels := levels + [Level(levelId, topic + " - Parte " + IntToString(i + 1), 3, 0,
                                RenameQuestions(questions, levelId), d.source.learnableConcepts)];
    }
    unit := Unit(startUnitId, "Unidade " + IntToString(startUnitId) + ": " + adjective + " " + topic, levels);
  }

  /** Searching one more unit, when the earlier ones have no match, searches that unit. */
  lemma SearchStep(curriculum: seq<Unit>, u: nat, id: int)
    requires u < |curriculum| && FindLevel(AllLevels(curriculum[..u]), id).None?
    ensures FindLevel(AllLevels(curriculum[..u + 1]), id) == FindLevel(curriculum[u].levels, id)
  {
    assert curriculum[..u + 1][..u] == curriculum[..u];
    FindLevelAppend(AllLevels(curriculum[..u]), curriculum[u].levels, id);
  }

  /** A match in the first units is the match in the whole curriculum. */
  lemma SearchFound(curriculum: seq<Unit>, u: nat, id: int)
    requires u < |curriculum| && FindLevel(AllLevels(curriculum[..u + 1]), id).Some?
    ensures FindLevel(AllLevels(curriculum), id) == FindLevel(AllLevels(curriculum[..u + 1]), id)
  {
    AllLevelsAppend(curriculum[..u + 1], curriculum[u + 1..]);
    assert curriculum[..u + 1] + curriculum[u + 1..] == curriculum;
    FindLevelAppend(AllLevels(curriculum[..u + 1]), AllLevels(curriculum[u + 1..]), id);
  }

  /** In a generated unit numbered from the id rounded down to ten, the level
      found is the id itself when its last digit is 0 to 2, and otherwise the
      first level stands in. */
  lemma GeneratedLookup(levels: seq<Level>, id: int)
    requires |levels| == 3
    requires forall j :: 0 <= j < 3 ==> levels[j].id == (id / 10) * 10 + j
    ensures var r := if FindLevel(levels, id).Some? then FindLevel(levels, id).value else levels[0];
      && r == levels[if id % 10 <= 2 then id % 10 else 0]
      && r.id == (if id % 10 <= 2 then id else id - id % 10)
  {
    FindLevelSpec(levels, id);
    assert (id / 10) * 10 == id - id % 10;
    if id % 10 <= 2 {
      assert levels[id % 10].id == id;
    } else {
      assert levels[0].id != id && levels[1].id != id && levels[2].id != id;
    }
  }

  /** `getLevelById`: the first curriculum level with that id; for an unknown id
      above 900, a level of a freshly generated unit; otherwise nothing. */
  method GetLevelById(curriculum: seq<Unit>, id: int, adjective: string, topic: string, draws: seq<Draw>)
    returns (r: Option<Level>)
    requires |draws| == 3
    requires forall j :: 0 <= j < 3 ==> IsShuffle(draws[j])
    ensures FindLevel(AllLevels(curriculum), id).Some? ==> r == FindLevel(AllLevels(curriculum), id)
    ensures FindLevel(AllLevels(curriculum), id).None? && id <= 900 ==> r.None?
    ensures FindLevel(AllLevels(curriculum), id).None? && id > 900 ==>
      && r.Some? && r.value.stars == 0 && r.value.totalQuestions == 3
      && r.value.id == (if id % 10 <= 2 then id else id - id % 10)
      && r.value.learnableConcepts == draws[if id % 10 <= 2 then id % 10 else 0].source.learnableConcepts
  {
    for u := 0 to |curriculum|
      invariant FindLevel(AllLevels(curriculum[..u]), id).None?
    {
      var level := FindLevel(curriculum[u].levels, id);
      SearchStep(curriculum, u, id);
      if level.Some? {
        SearchFound(curriculum, u, id);
        return level;
      }
    }
    assert curriculum[..|curriculum|] == curriculum;
    if id > 900 {
      var unit := GenerateRandomUnit(id / 100, (id / 10) * 10, adjective, topic, draws);
      forall j | 0 <= j < 3
        ensures unit.levels[j].id == (id / 10) * 10 + j
        ensures unit.levels[j].stars == 0 && unit.levels[j].totalQuestions == 3
      {
        GeneratedLevelSpec((id / 10) * 10 + j, topic + " - Parte " + IntToString(j + 1), draws[j]);
      }
      GeneratedLookup(unit.levels, id);
      var found := FindLevel(unit.levels, id);
      if found.Some? {
        return found;
      }
      return Some(unit.levels[0]);
    }
    return None;
  }
}
