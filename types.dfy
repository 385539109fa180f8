// The records of frontend/types.ts that the modelled screens and reducers use.
// Presentational fields (colours, icons, avatars, descriptions shown only as
// text) are left out.

module Types {

  datatype Option<T> = None | Some(value: T)

  /** No element occurs twice. */
  predicate NoDup<T(==)>(s: seq<T>) {
    forall i, j :: 0 <= i < j < |s| ==> s[i] != s[j]
  }

  /** A new element in front of a list without repeats gives none. */
  lemma NoDupCons<T>(x: T, s: seq<T>)
    requires NoDup(s) && x !in s
    ensures NoDup([x] + s)
  {
    forall i, j | 0 <= i < j < |[x] + s|
      ensures ([x] + s)[i] != ([x] + s)[j]
    {
      assert ([x] + s)[j] == s[j - 1];
      if i > 0 {
        assert ([x] + s)[i] == s[i - 1];
      }
    }
  }

  /** A new element at the end of a list without repeats gives none. */
  lemma NoDupSnoc<T>(s: seq<T>, x: T)
    requires NoDup(s) && x !in s
    ensures NoDup(s + [x])
  {
    forall i, j | 0 <= i < j < |s + [x]|
      ensures (s + [x])[i] != (s + [x])[j]
    {
      assert (s + [x])[i] == s[i];
      if j < |s| {
        assert (s + [x])[j] == s[j];
      }
    }
  }

  /** `a` can be obtained from `b` by deleting elements. */
  ghost predicate IsSubsequence<T>(a: seq<T>, b: seq<T>)
    decreases |b|
  {
    if a == [] then true
    else if b == [] then false
    else (a[0] == b[0] && IsSubsequence(a[1..], b[1..])) || IsSubsequence(a, b[1..])
  }

  datatype QuestionType =
    | Theory | MultipleChoice | CodeBuilder | Translation | PairMatch
    | DragAndDrop | FillInBlank | Listening | Speaking

  datatype AnswerOption = AnswerOption(id: string, text: string, isCorrect: bool)

  datatype PairItem = PairItem(id: string, text: string, pairId: string)

  /** An absent `pairs`, `segments` or `distractors` list is the empty list;
      `theory` is the concept of the question's theory card, when it has one. */
  datatype Question = Question(
    id: string,
    kind: QuestionType,
    options: seq<AnswerOption>,
    pairs: seq<PairItem>,
    segments: seq<string>,
    distractors: seq<string>,
    correctAnswer: Option<string>,
    theory: Option<string>)

  datatype ConceptType = Logic | English | Syntax

  datatype ReviewConcept = ReviewConcept(term: string, definition: string, kind: ConceptType)

  datatype Level = Level(
    id: int,
    title: string,
    totalQuestions: int,
    stars: int,
    questions: seq<Question>,
    learnableConcepts: seq<ReviewConcept>)

  datatype Unit = Unit(id: int, title: string, levels: seq<Level>)

  datatype QuestKind = LessonQuest | XpQuest | PerfectQuest | StreakQuest

  /** An entry of the daily quest template list: a quest without its progress fields. */
  datatype QuestTemplate = QuestTemplate(id: string, description: string, target: int, reward: int, kind: QuestKind)

  datatype Quest = Quest(
    id: string,
    description: string,
    target: int,
    current: int,
    reward: int,
    completed: bool,
    claimed: bool,
    kind: QuestKind)

  /** A template turned into a quest with no progress, as `{ ...q, current: 0, completed: false, claimed: false }`. */
  function FreshQuest(t: QuestTemplate): (q: Quest)
    ensures q.id == t.id && q.reward == t.reward && q.target == t.target && q.kind == t.kind
    ensures q.current == 0 && !q.completed && !q.claimed
  {
    Quest(t.id, t.description, t.target, 0, t.reward, false, false, t.kind)
  }

  /** The persistent game state. `lastHeartLostTime` is a millisecond timestamp or null. */
  datatype UserStats = UserStats(
    hearts: int,
    totalXP: nat,
    level: nat,
    streakDays: int,
    gems: int,
    completedLevels: seq<int>,
    unlockedAchievements: seq<string>,
    lessonsCompleted: int,
    perfectLessons: int,
    isPremium: bool,
    lastHeartLostTime: Option<int>,
    hasSeenOnboarding: bool,
    activeQuests: seq<Quest>,
    lastQuestGenDate: Option<string>,
    username: string,
    hasAcceptedTerms: bool,
    conceptMastery: map<string, int>,
    skipTokens: int)

  datatype LessonResult = LessonResult(
    baseXP: nat,
    comboBonus: nat,
    perfectBonus: nat,
    totalXP: nat,
    correctCount: nat,
    mistakeCount: nat,
    maxCombo: nat)

  datatype ShopItemKind = Consumable | Subscription | CurrencyPack

  /** `cost` is in gems for consumables; the real-money price of the other kinds is not modelled. */
  datatype ShopItem = ShopItem(id: string, name: string, cost: int, kind: ShopItemKind, gemAmount: Option<int>)

  datatype CodeFile = CodeFile(id: string, name: string, initialCode: string, correctCode: string, isEditable: bool)

  datatype DebugChallenge = DebugChallenge(id: string, title: string, files: seq<CodeFile>, hints: seq<string>, xpReward: nat)

  /** All levels of a list of units, in unit order (`units.flatMap(u => u.levels)`). */
  function AllLevels(units: seq<Unit>): seq<Level>
    decreases |units|
  {
    if units == [] then [] else AllLevels(units[..|units| - 1]) + units[|units| - 1].levels
  }

  /** Flattening distributes over concatenation. */
  lemma {:induction false} AllLevelsAppend(a: seq<Unit>, b: seq<Unit>)
    decreases |b|
    ensures AllLevels(a + b) == AllLevels(a) + AllLevels(b)
  {
    if b == [] {
      assert a + b == a;
    } else {
      assert (a + b)[..|a + b| - 1] == a + b[..|b| - 1];
      AllLevelsAppend(a, b[..|b| - 1]);
    }
  }

  /** `findIndex` by id over the ids of a list: the first position holding
      `id`, or -1 when none does. */
  function FirstIndex<K(==)>(ids: seq<K>, id: K): (r: int)
    ensures -1 <= r < |ids|
    ensures r >= 0 ==> ids[r] == id && forall j :: 0 <= j < r ==> ids[j] != id
    ensures r == -1 ==> forall j :: 0 <= j < |ids| ==> ids[j] != id
  {
    if ids == [] then -1
    else if ids[0] == id then 0
    else
      var rest := FirstIndex(ids[1..], id);
      if rest == -1 then -1 else rest + 1
  }

  /** `levels.find(l => l.id === id)`: the first level with that id. */
  function FindLevel(levels: seq<Level>, id: int): Option<Level> {
    if levels == [] then None
    else if levels[0].id == id then Some(levels[0])
    else FindLevel(levels[1..], id)
  }

  /** The search finds a level of the list with that id, or reports that none has it. */
  lemma {:induction false} FindLevelSpec(levels: seq<Level>, id: int)
    ensures FindLevel(levels, id).Some? ==> FindLevel(levels, id).value in levels && FindLevel(levels, id).value.id == id
    ensures FindLevel(levels, id).None? ==> forall i :: 0 <= i < |levels| ==> levels[i].id != id
  {
    if levels != [] && levels[0].id != id {
      FindLevelSpec(levels[1..], id);
      forall i | 0 < i < |levels|
        ensures FindLevel(levels, id).None? ==> levels[i].id != id
      {
        assert levels[i] == levels[1..][i - 1];
      }
    }
  }

  /** Searching a concatenation searches the first part, then the second. */
  lemma {:induction false} FindLevelAppend(a: seq<Level>, b: seq<Level>, id: int)
    ensures FindLevel(a + b, id) == if FindLevel(a, id).Some? then FindLevel(a, id) else FindLevel(b, id)
  {
    if a == [] {
      assert a + b == b;
    } else {
      assert (a + b)[0] == a[0] && (a + b)[1..] == a[1..] + b;
      FindLevelAppend(a[1..], b, id);
    }
  }
}
