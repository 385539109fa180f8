// The game-state reducers of frontend/App.tsx: quest progress, claim and
// reset, heart regeneration and loss, purchases and lesson completion. Each
// handler is one atomic transition on UserStats; the clock ("now") and the
// random picks are parameters.

module Game {
  import opened Types
  import opened Constants

  /** `INITIAL_STATS` (the unmodelled `selectedModule` and `settings` aside). */
  const InitialStats: UserStats :=
    UserStats(MaxHearts, 0, 1, 1, 0, [], [], 0, 0, false, None, false, [], None, "Dev", true, map[], 0)

  /** The level id used for a Smart Workout session. */
  const SmartWorkoutId: int := 99999

  // ---------------------------------------------------------------- quests

  /** The `map` callback of `updateQuests`. */
  function ProgressQuest(q: Quest, kind: QuestKind, amount: int): Quest {
    if q.kind == kind && !q.completed then
      var newCurrent := q.current + amount;
      q.(current := newCurrent, completed := newCurrent >= q.target)
    else q
  }

  /** `updateQuests(type, amount)` on the quest list. */
  function UpdateQuests(quests: seq<Quest>, kind: QuestKind, amount: int): seq<Quest> {
    seq(|quests|, i requires 0 <= i < |quests| => ProgressQuest(quests[i], kind, amount))
  }

  /** Only unfinished quests of the given kind move: their counter rises by
      `amount` and they are completed once it reaches the target. Every other
      quest is left as it was, and nothing but the counter and the flag changes. */
  lemma UpdateQuestsEffect(quests: seq<Quest>, kind: QuestKind, amount: int)
    ensures var r := UpdateQuests(quests, kind, amount);
      && |r| == |quests|
      && forall i :: 0 <= i < |quests| ==>
        if quests[i].kind == kind && !quests[i].completed then
          && r[i].current == quests[i].current + amount
          && (r[i].completed <==> r[i].current >= r[i].target)
          && r[i].(current := quests[i].current, completed := quests[i].completed) == quests[i]
        else r[i] == quests[i]
  {
  }

  /** Updates for two different kinds touch disjoint quests, so the order of the
      queued updates does not matter. */
  lemma UpdateQuestsCommute(quests: seq<Quest>, k1: QuestKind, a1: int, k2: QuestKind, a2: int)
    requires k1 != k2
    ensures UpdateQuests(UpdateQuests(quests, k1, a1), k2, a2) == UpdateQuests(UpdateQuests(quests, k2, a2), k1, a1)
  {
  }

  /** The ids of the quests, in order. */
  function QuestIds(quests: seq<Quest>): seq<string> {
    seq(|quests|, i requires 0 <= i < |quests| => quests[i].id)
  }

  /** The index of the first quest with that id (`find`), or -1. */
  function QuestIndex(quests: seq<Quest>, id: string): (r: int)
    ensures -1 <= r < |quests|
    ensures r >= 0 ==> quests[r].id == id && forall j :: 0 <= j < r ==> quests[j].id != id
    ensures r == -1 ==> forall j :: 0 <= j < |quests| ==> quests[j].id != id
  {
    assert forall j :: 0 <= j < |quests| ==> QuestIds(quests)[j] == quests[j].id;
    FirstIndex(QuestIds(quests), id)
  }

  /** The quest list with every quest of that id marked claimed. */
  function MarkClaimed(quests: seq<Quest>, id: string): seq<Quest> {
    seq(|quests|, i requires 0 <= i < |quests| => if quests[i].id == id then quests[i].(claimed := true) else quests[i])
  }

  /** `handleClaimQuest(id)`. */
  function ClaimQuest(s: UserStats, id: string): UserStats {
    var i := QuestIndex(s.activeQuests, id);
    if i >= 0 && s.activeQuests[i].completed && !s.activeQuests[i].claimed then
      s.(gems := s.gems + s.activeQuests[i].reward, activeQuests := MarkClaimed(s.activeQuests, id))
    else s
  }

  /** Claiming a completed, unclaimed quest pays exactly its reward and marks it
      claimed, touching nothing else; in every other case nothing happens. */
  lemma ClaimQuestEffect(s: UserStats, id: string)
    ensures var i := QuestIndex(s.activeQuests, id); var r := ClaimQuest(s, id);
      if i >= 0 && s.activeQuests[i].completed && !s.activeQuests[i].claimed then
        && r.gems == s.gems + s.activeQuests[i].reward
        && |r.activeQuests| == |s.activeQuests|
        && (forall j :: 0 <= j < |s.activeQuests| ==>
              r.activeQuests[j] == if s.activeQuests[j].id == id then s.activeQuests[j].(claimed := true) else s.activeQuests[j])
        && r == s.(gems := r.gems, activeQuests := r.activeQuests)
      else r == s
  {
  }

  /** A second claim of the same quest pays nothing. */
  lemma ClaimQuestTwice(s: UserStats, id: string)
    ensures ClaimQuest(ClaimQuest(s, id), id) == ClaimQuest(s, id)
  {
    var i := QuestIndex(s.activeQuests, id);
    var r := ClaimQuest(s, id);
    if i >= 0 && s.activeQuests[i].completed && !s.activeQuests[i].claimed {
      var qs := r.activeQuests;
      assert forall j :: 0 <= j < |qs| ==> qs[j].id == s.activeQuests[j].id;
      QuestIndexSameIds(s.activeQuests, qs, id);
      assert qs[i].claimed;
    }
  }

  /** Two lists with the same ids find the same index. */
  lemma QuestIndexSameIds(a: seq<Quest>, b: seq<Quest>, id: string)
    requires |a| == |b| && forall j :: 0 <= j < |a| ==> a[j].id == b[j].id
    ensures QuestIndex(a, id) == QuestIndex(b, id)
  {
    assert QuestIds(a) == QuestIds(b);
  }

  const ResetCost: int := 50

  /** Difficulty band of a reward: up to 20, 21 to 60, above 60. */
  function Band(reward: int): int {
    if reward <= 20 then 0 else if reward <= 60 then 1 else 2
  }

  /** The templates other than `questId` in the band of `reward`, in template order. */
  function ResetPool(templates: seq<QuestTemplate>, questId: string, reward: int): (r: seq<QuestTemplate>)
    ensures forall k :: 0 <= k < |r| ==> r[k] in templates && r[k].id != questId && Band(r[k].reward) == Band(reward)
    ensures forall t :: t in templates && t.id != questId && Band(t.reward) == Band(reward) ==> t in r
  {
    if templates == [] then []
    else
      var rest := ResetPool(templates[1..], questId, reward);
      var t := templates[0];
      if t.id != questId && Band(t.reward) == Band(reward) then [t] + rest else rest
  }

  /** The quest list with every quest of that id replaced by `q`. */
  function ReplaceQuest(quests: seq<Quest>, id: string, q: Quest): seq<Quest> {
    seq(|quests|, i requires 0 <= i < |quests| => if quests[i].id == id then q else quests[i])
  }

  /** `handleResetQuest(questId)`; `pick` is the random draw from the pool. */
  function ResetQuest(s: UserStats, questId: string, pick: nat): UserStats {
    if s.gems < ResetCost then s
    else
      var i := QuestIndex(s.activeQuests, questId);
      if i < 0 then s
      else
        var pool := ResetPool(QuestTemplates, questId, s.activeQuests[i].reward);
        if pool == [] then s
        else
          var t := pool[pick % |pool|];
          s.(gems := s.gems - ResetCost, activeQuests := ReplaceQuest(s.activeQuests, questId, FreshQuest(t)))
  }

  /** A reset costs exactly 50 gems and puts, in place of the quest, a fresh
      quest with a different id from the same reward band; without 50 gems or
      without the quest nothing changes. With 50 gems, the quest present and a
      replacement in its band, the reset takes place with the drawn template. */
  lemma ResetQuestEffect(s: UserStats, questId: string, pick: nat)
    ensures var r := ResetQuest(s, questId, pick); var i := QuestIndex(s.activeQuests, questId);
      && (s.gems < ResetCost || i < 0 ==> r == s)
      && (s.gems >= ResetCost && i >= 0 && ResetPool(QuestTemplates, questId, s.activeQuests[i].reward) != [] ==>
            var pool := ResetPool(QuestTemplates, questId, s.activeQuests[i].reward);
            r == s.(gems := s.gems - ResetCost,
                    activeQuests := ReplaceQuest(s.activeQuests, questId, FreshQuest(pool[pick % |pool|]))))
      && (r != s ==>
            && i >= 0
            && r.gems == s.gems - ResetCost
            && r == s.(gems := r.gems, activeQuests := r.activeQuests)
            && |r.activeQuests| == |s.activeQuests|
            && exists t :: t in QuestTemplates && t.id != questId && Band(t.reward) == Band(s.activeQuests[i].reward)
                 && forall j :: 0 <= j < |s.activeQuests| ==>
                      r.activeQuests[j] == if s.activeQuests[j].id == questId then FreshQuest(t) else s.activeQuests[j])
  {
    var r := ResetQuest(s, questId, pick);
    var i := QuestIndex(s.activeQuests, questId);
    if r != s {
      var pool := ResetPool(QuestTemplates, questId, s.activeQuests[i].reward);
      var t := pool[pick % |pool|];
      assert t in QuestTemplates && t.id != questId && Band(t.reward) == Band(s.activeQuests[i].reward);
    }
  }

  /** Every daily quest has a replacement: a quest made from a template always
      finds another template in its band. */
  lemma ResetPoolNonEmpty(t: QuestTemplate)
    requires t in QuestTemplates
    ensures ResetPool(QuestTemplates, t.id, t.reward) != []
  {
    var easy, medium := QuestTemplates[0], QuestTemplates[2];
    var easy2, medium2 := QuestTemplates[1], QuestTemplates[4];
    if Band(t.reward) == 0 {
      assert easy.id != t.id || easy2.id != t.id;
      assert easy in ResetPool(QuestTemplates, t.id, t.reward) || easy2 in ResetPool(QuestTemplates, t.id, t.reward);
    } else {
      assert medium.id != t.id || medium2.id != t.id;
      assert medium in ResetPool(QuestTemplates, t.id, t.reward) || medium2 in ResetPool(QuestTemplates, t.id, t.reward);
    }
  }

  // ---------------------------------------------------------------- hearts

  /** `!lastHeartLostTime` is false: a timestamp is stored and it is not 0. */
  predicate TimerRunning(t: Option<int>) {
    t.Some? && t.value != 0
  }

  /** Hearts stay within [0, 5], and the refill timer is stored exactly while hearts are missing. */
  predicate HeartsConsistent(s: UserStats) {
    0 <= s.hearts <= MaxHearts && (s.hearts == MaxHearts <==> s.lastHeartLostTime.None?)
  }

  lemma InitialHeartsConsistent()
    ensures HeartsConsistent(InitialStats)
  {
  }

  /** One run of `checkRegen` at time `now`, with the effect's guard. */
  function CheckRegen(s: UserStats, now: int): UserStats {
    if s.hearts >= MaxHearts || !TimerRunning(s.lastHeartLostTime) then s
    else
      var lost := s.lastHeartLostTime.value;
      var timePassed := now - lost;
      if timePassed >= HeartRefillTimeMs then
        var recovered := timePassed / HeartRefillTimeMs;
        var newHearts := Min(MaxHearts, s.hearts + recovered);
        s.(hearts := newHearts,
           lastHeartLostTime := if newHearts == MaxHearts then None else Some(lost + recovered * HeartRefillTimeMs))
      else s
  }

  /** Regeneration adds one heart per whole refill period elapsed, never beyond 5;
      it clears the timer exactly when hearts reach 5 and otherwise moves it forward
      by the recovered hearts' worth of time. Nothing else changes. */
  lemma CheckRegenEffect(s: UserStats, now: int)
    ensures var r := CheckRegen(s, now);
      && r == s.(hearts := r.hearts, lastHeartLostTime := r.lastHeartLostTime)
      && r.hearts >= s.hearts
      && (s.hearts <= MaxHearts ==> r.hearts <= MaxHearts)
      && (s.hearts < MaxHearts && TimerRunning(s.lastHeartLostTime) ==>
            var lost := s.lastHeartLostTime.value;
            && (now - lost < HeartRefillTimeMs ==> r == s)
            && (now - lost >= HeartRefillTimeMs ==>
                  && r.hearts == Min(MaxHearts, s.hearts + (now - lost) / HeartRefillTimeMs)
                  && (r.lastHeartLostTime.None? <==> r.hearts == MaxHearts)
                  && (r.hearts < MaxHearts ==>
                        r.lastHeartLostTime == Some(lost + (r.hearts - s.hearts) * HeartRefillTimeMs))))
  {
  }

  /** A second check at the same instant recovers nothing more: the time left
      over after moving the timer is less than one refill period. */
  lemma CheckRegenIdempotent(s: UserStats, now: int)
    ensures CheckRegen(CheckRegen(s, now), now) == CheckRegen(s, now)
  {
    var r := CheckRegen(s, now);
    if r != s && r.hearts < MaxHearts {
      var lost := s.lastHeartLostTime.value;
      var timePassed := now - lost;
      var recovered := timePassed / HeartRefillTimeMs;
      assert timePassed == recovered * HeartRefillTimeMs + timePassed % HeartRefillTimeMs;
      assert now - (lost + recovered * HeartRefillTimeMs) < HeartRefillTimeMs;
    }
  }

  lemma CheckRegenKeepsConsistent(s: UserStats, now: int)
    requires HeartsConsistent(s)
    ensures HeartsConsistent(CheckRegen(s, now))
  {
  }

  /** `updateHearts(newHearts)` at time `now`. */
  function UpdateHearts(s: UserStats, newHearts: int, now: int): UserStats {
    if s.isPremium then s
    else
      var isLosing := newHearts < s.hearts;
      var timer := if isLosing && s.hearts == MaxHearts then Some(now) else s.lastHeartLostTime;
      var timer' := if newHearts >= MaxHearts then None else timer;
      s.(hearts := newHearts, lastHeartLostTime := timer')
  }

  /** Premium players are untouched. Otherwise hearts take the new value, the
      timer starts only on a loss from a full 5, is cleared whenever hearts
      reach 5, and stays as it was otherwise. */
  lemma UpdateHeartsEffect(s: UserStats, newHearts: int, now: int)
    ensures var r := UpdateHearts(s, newHearts, now);
      && (s.isPremium ==> r == s)
      && (!s.isPremium ==>
            && r == s.(hearts := newHearts, lastHeartLostTime := r.lastHeartLostTime)
            && (newHearts >= MaxHearts ==> r.lastHeartLostTime.None?)
            && (newHearts < MaxHearts && s.hearts == MaxHearts ==> r.lastHeartLostTime == Some(now))
            && (newHearts < MaxHearts && s.hearts != MaxHearts ==> r.lastHeartLostTime == s.lastHeartLostTime))
  {
  }

  lemma UpdateHeartsKeepsConsistent(s: UserStats, newHearts: int, now: int)
    requires HeartsConsistent(s)
    requires 0 <= newHearts <= MaxHearts
    ensures HeartsConsistent(UpdateHearts(s, newHearts, now))
  {
  }

  /** Losing one heart from full and waiting one refill period restores all hearts. */
  lemma LoseOneThenRegen(s: UserStats, now: int)
    requires !s.isPremium && s.hearts == MaxHearts && now != 0
    ensures var r := CheckRegen(UpdateHearts(s, MaxHearts - 1, now), now + HeartRefillTimeMs);
      r.hearts == MaxHearts && r.lastHeartLostTime.None?
  {
  }

  // ---------------------------------------------------------------- purchases

  /** `item.gemAmount || 0`. */
  function GemAmount(item: ShopItem): int {
    if item.gemAmount.Some? then item.gemAmount.value else 0
  }

  /** A shuffle of the five templates has five entries, each a template. */
  lemma ShuffledTemplates(shuffled: seq<QuestTemplate>)
    requires multiset(shuffled) == multiset(QuestTemplates)
    ensures |shuffled| == 5
    ensures forall k :: 0 <= k < |shuffled| ==> shuffled[k] in QuestTemplates
  {
    assert |multiset(shuffled)| == |multiset(QuestTemplates)|;
    forall k | 0 <= k < |shuffled| ensures shuffled[k] in QuestTemplates {
      assert shuffled[k] in multiset(shuffled);
    }
  }

  /** The first three templates of a shuffle, as fresh quests. */
  function DrawQuests(shuffled: seq<QuestTemplate>): (r: seq<Quest>)
    requires multiset(shuffled) == multiset(QuestTemplates)
    ensures |r| == 3
    ensures forall k :: 0 <= k < 3 ==> r[k] == FreshQuest(shuffled[k]) && shuffled[k] in QuestTemplates
  {
    ShuffledTemplates(shuffled);
    [FreshQuest(shuffled[0]), FreshQuest(shuffled[1]), FreshQuest(shuffled[2])]
  }

  /** The consumables `handleBuyItem` knows by id. */
  predicate KnownConsumable(id: string) {
    id == "refill_hearts" || id == "skip_question" || id == "quest_reset" || id == "streak_freeze"
  }

  /** `handleBuyItem(item)`. `shuffled` is the random order of the quest
      templates used when a quest reset is bought. */
  method BuyItem(prev: UserStats, item: ShopItem, shuffled: seq<QuestTemplate>) returns (next: UserStats)
    requires multiset(shuffled) == multiset(QuestTemplates)
    ensures item.kind == CurrencyPack ==> next == prev.(gems := prev.gems + GemAmount(item))
    ensures item.kind == Subscription ==> next == prev.(isPremium := true, hearts := MaxHearts, lastHeartLostTime := None)
    ensures item.kind == Consumable && item.id == "refill_hearts" ==>
      next == prev.(hearts := MaxHearts, gems := prev.gems - item.cost, lastHeartLostTime := None)
    ensures item.kind == Consumable && item.id == "skip_question" ==>
      next == prev.(skipTokens := prev.skipTokens + 1, gems := prev.gems - item.cost)
    ensures item.kind == Consumable && item.id == "quest_reset" ==>
      next == prev.(activeQuests := DrawQuests(shuffled), gems := prev.gems - item.cost)
    ensures item.kind == Consumable && item.id == "streak_freeze" ==> next == prev.(gems := prev.gems - item.cost)
    ensures item.kind == Consumable && !KnownConsumable(item.id) ==> next == prev
    ensures HeartsConsistent(prev) ==> HeartsConsistent(next)
  {
    next := prev;
    if item.kind == CurrencyPack {
      next := next.(gems := prev.gems + GemAmount(item));
    } else if item.kind == Subscription {
      next := next.(isPremium := true, hearts := MaxHearts, lastHeartLostTime := None);
    } else {
      if item.id == "refill_hearts" {
        next := next.(hearts := MaxHearts, gems := prev.gems - item.cost, lastHeartLostTime := None);
      } else if item.id == "skip_question" {
        next := next.(skipTokens := prev.skipTokens + 1, gems := prev.gems - item.cost);
      } else if item.id == "quest_reset" {
        next := next.(activeQuests := DrawQuests(shuffled), gems := prev.gems - item.cost);
      } else if item.id == "streak_freeze" {
        next := next.(gems := prev.gems - item.cost);
      }
    }
  }

  /** The catalogue sells neither skip tokens nor quest resets, so those two
      branches of `handleBuyItem` are never reached from the shop. */
  lemma CatalogueHasNoSkipOrReset(item: ShopItem)
    requires item in ShopItems
    ensures item.id != "skip_question" && item.id != "quest_reset"
  {
  }

  // ---------------------------------------------------------------- lesson completion

  /** `activeLevelId` counts for completion when it is set, non-zero and not the Smart Workout id. */
  predicate CountsAsLevel(activeLevelId: Option<int>) {
    activeLevelId.Some? && activeLevelId.value != 0 && activeLevelId.value != SmartWorkoutId
  }

  /** `completedLevels` after the lesson. */
  function AddCompleted(levels: seq<int>, activeLevelId: Option<int>): seq<int> {
    if CountsAsLevel(activeLevelId) && activeLevelId.value !in levels then levels + [activeLevelId.value] else levels
  }

  /** The completed list only grows, gains the finished level, and stays duplicate-free. */
  lemma AddCompletedEffect(levels: seq<int>, activeLevelId: Option<int>)
    ensures var r := AddCompleted(levels, activeLevelId);
      && levels <= r && |r| <= |levels| + 1
      && (CountsAsLevel(activeLevelId) ==> activeLevelId.value in r)
      && (!CountsAsLevel(activeLevelId) ==> r == levels)
      && (NoDup(levels) ==> NoDup(r))
  {
  }

  /** `updatedMastery[concept] || 0`. */
  function Score(m: map<string, int>, c: string): int {
    if c in m then m[c] else 0
  }

  /** `Math.min(100, Math.max(0, x))`. */
  function Clamp(x: int): (r: int)
    ensures 0 <= r <= 100
    ensures 0 <= x <= 100 ==> r == x
  {
    if x < 0 then 0 else if x > 100 then 100 else x
  }

  /** +10 for a lesson without mistakes, otherwise -10 per mistake. */
  function MasteryDelta(mistakes: nat): int {
    if mistakes > 0 then -(mistakes * 10) else 10
  }

  /** The mastery map after the `forEach` over the level's concept terms. */
  function ApplyMastery(m: map<string, int>, concepts: seq<string>, delta: int): map<string, int>
    decreases |concepts|
  {
    if concepts == [] then m
    else
      var before := ApplyMastery(m, concepts[..|concepts| - 1], delta);
      var c := concepts[|concepts| - 1];
      before[c := Clamp(Score(before, c) + delta)]
  }

  /** The mastery loop of `handleLessonComplete`. */
  method UpdateMastery(m: map<string, int>, concepts: seq<string>, mistakes: nat) returns (r: map<string, int>)
    ensures r == ApplyMastery(m, concepts, MasteryDelta(mistakes))
  {
    r := m;
    var change := 10;
    if mistakes > 0 {
      change := -(mistakes * 10);
    }
    for i := 0 to |concepts|
      invariant r == ApplyMastery(m, concepts[..i], change)
    {
      var concept := concepts[i];
      var currentScore := if concept in r then r[concept] else 0;
      r := r[concept := Min(100, if currentScore + change < 0 then 0 else currentScore + change)];
      assert concepts[..i + 1][..i] == concepts[..i];
    }
    assert concepts[..|concepts|] == concepts;
  }

  /** Concepts outside the lesson keep their entry, or their absence. */
  lemma {:induction false} ApplyMasteryFrame(m: map<string, int>, concepts: seq<string>, delta: int, k: string)
    decreases |concepts|
    requires k !in concepts
    ensures (k in ApplyMastery(m, concepts, delta) <==> k in m)
    ensures k in m ==> ApplyMastery(m, concepts, delta)[k] == m[k]
  {
    if concepts != [] {
      ApplyMasteryFrame(m, concepts[..|concepts| - 1], delta, k);
    }
  }

  /** Every concept of the lesson ends up with a score in [0, 100]. */
  lemma {:induction false} ApplyMasteryInRange(m: map<string, int>, concepts: seq<string>, delta: int, c: string)
    decreases |concepts|
    requires c in concepts
    ensures c in ApplyMastery(m, concepts, delta)
    ensures 0 <= ApplyMastery(m, concepts, delta)[c] <= 100
  {
    var last := concepts[|concepts| - 1];
    if c != last {
      var init := concepts[..|concepts| - 1];
      assert c in init by {
        assert concepts == init + [last];
      }
      ApplyMasteryInRange(m, init, delta, c);
    }
  }

  /** A concept listed once moves by exactly the delta from its old score (0 if
      absent), clamped into [0, 100]. */
  lemma {:induction false} ApplyMasteryOnce(m: map<string, int>, concepts: seq<string>, delta: int, c: string)
    decreases |concepts|
    requires multiset(concepts)[c] == 1
    ensures Score(ApplyMastery(m, concepts, delta), c) == Clamp(Score(m, c) + delta)
  {
    var init, last := concepts[..|concepts| - 1], concepts[|concepts| - 1];
    assert concepts == init + [last];
    if last == c {
      assert multiset(init)[c] == 0;
      ApplyMasteryFrame(m, init, delta, c);
    } else {
      ApplyMasteryOnce(m, init, delta, c);
    }
  }

  /** The stats the achievement conditions are evaluated on. */
  function Simulated(prev: UserStats, newTotalXP: nat): UserStats {
    prev.(totalXP := newTotalXP, lessonsCompleted := prev.lessonsCompleted + 1)
  }

  /** The achievements of `ids`, in order, that are not yet unlocked and whose condition holds. */
  function Newly(unlocked: seq<string>, sim: UserStats, result: LessonResult, ids: seq<string>): seq<string>
    decreases |ids|
  {
    if ids == [] then []
    else
      var before := Newly(unlocked, sim, result, ids[..|ids| - 1]);
      var a := ids[|ids| - 1];
      if a !in unlocked && AchievementCondition(a, sim, result) then before + [a] else before
  }

  /** Only locked achievements of the list whose condition holds are unlocked. */
  lemma {:induction false} NewlySound(unlocked: seq<string>, sim: UserStats, result: LessonResult, ids: seq<string>)
    decreases |ids|
    ensures forall a :: a in Newly(unlocked, sim, result, ids) ==>
      a in ids && a !in unlocked && AchievementCondition(a, sim, result)
  {
    if ids != [] {
      var init := ids[..|ids| - 1];
      NewlySound(unlocked, sim, result, init);
      assert ids == init + [ids[|ids| - 1]];
    }
  }

  /** Every locked achievement whose condition holds is unlocked. */
  lemma {:induction false} NewlyComplete(unlocked: seq<string>, sim: UserStats, result: LessonResult, ids: seq<string>, a: string)
    decreases |ids|
    requires a in ids && a !in unlocked && AchievementCondition(a, sim, result)
    ensures a in Newly(unlocked, sim, result, ids)
  {
    var init := ids[..|ids| - 1];
    if a != ids[|ids| - 1] {
      assert a in init by {
        assert ids == init + [ids[|ids| - 1]];
      }
      NewlyComplete(unlocked, sim, result, init, a);
    }
  }

  /** Appending the newly unlocked ids keeps the list duplicate-free. */
  lemma {:induction false} NewlyKeepsNoDup(unlocked: seq<string>, sim: UserStats, result: LessonResult, ids: seq<string>)
    decreases |ids|
    requires NoDup(unlocked) && NoDup(ids)
    ensures NoDup(unlocked + Newly(unlocked, sim, result, ids))
  {
    if ids != [] {
      var init := ids[..|ids| - 1];
      var a := ids[|ids| - 1];
      assert NoDup(init);
      NewlyKeepsNoDup(unlocked, sim, result, init);
      NewlySound(unlocked, sim, result, init);
      var before := Newly(unlocked, sim, result, init);
      assert a !in init by {
        assert forall k :: 0 <= k < |init| ==> init[k] == ids[k] != a;
      }
      assert a !in before by {
        forall k | 0 <= k < |before| ensures before[k] != a {
          assert before[k] in init;
        }
      }
      if a !in unlocked && AchievementCondition(a, sim, result) {
        assert unlocked + Newly(unlocked, sim, result, ids) == (unlocked + before) + [a];
        assert a !in unlocked + before;
      }
    }
  }

  /** The `ACHIEVEMENTS.forEach` loop. */
  method CollectAchievements(unlocked: seq<string>, sim: UserStats, result: LessonResult) returns (newly: seq<string>)
    ensures newly == Newly(unlocked, sim, result, AchievementIds)
  {
    newly := [];
    for i := 0 to |AchievementIds|
      invariant newly == Newly(unlocked, sim, result, AchievementIds[..i])
    {
      var id := AchievementIds[i];
      assert AchievementIds[..i + 1][..i] == AchievementIds[..i];
      if id !in unlocked {
        if AchievementCondition(id, sim, result) {
          newly := newly + [id];
        }
      }
    }
    assert AchievementIds[..|AchievementIds|] == AchievementIds;
  }

  /** The four `updateQuests` calls queued by `handleLessonComplete`. */
  function LessonQuests(quests: seq<Quest>, result: LessonResult, streakDays: int): seq<Quest> {
    var q1 := UpdateQuests(quests, LessonQuest, 1);
    var q2 := UpdateQuests(q1, XpQuest, result.totalXP);
    var q3 := if result.mistakeCount == 0 then UpdateQuests(q2, PerfectQuest, 1) else q2;
    UpdateQuests(q3, StreakQuest, streakDays)
  }

  /** How far a lesson moves a quest of each kind; none for a perfect-lesson
      quest after a lesson with mistakes. */
  function LessonAmount(kind: QuestKind, result: LessonResult, streakDays: int): Option<int> {
    match kind
    case LessonQuest => Some(1)
    case XpQuest => Some(result.totalXP)
    case PerfectQuest => if result.mistakeCount == 0 then Some(1) else None
    case StreakQuest => Some(streakDays)
  }

  /** Each quest is advanced once, by the amount for its kind. */
  lemma LessonQuestsEffect(quests: seq<Quest>, result: LessonResult, streakDays: int)
    ensures var r := LessonQuests(quests, result, streakDays);
      && |r| == |quests|
      && forall i :: 0 <= i < |quests| ==>
           r[i] == match LessonAmount(quests[i].kind, result, streakDays)
                   case Some(amount) => ProgressQuest(quests[i], quests[i].kind, amount)
                   case None => quests[i]
  {
  }

  /** The id of a level built in the level editor. */
  const CustomLevelId: int := 88888

  /** `learnableConcepts.map(c => c.term)`. */
  function ConceptTerms(cs: seq<ReviewConcept>): seq<string> {
    seq(|cs|, k requires 0 <= k < |cs| => cs[k].term)
  }

  /** The whole of `handleLessonComplete` as one transition: the queued quest
      updates, then the `setUserStats` body. The lesson's `concepts` are the terms
      of the custom level, or of the level `getLevelById` finds (in `curriculum`,
      or generated from `draws` above 900), and none for a Smart Workout or no
      level. */
  method CompleteLesson(prev: UserStats, result: LessonResult, activeLevelId: Option<int>, customLevel: Option<Level>,
                        curriculum: seq<Unit>, adjective: string, topic: string, draws: seq<Draw>)
    returns (next: UserStats, concepts: seq<string>)
    requires |draws| == 3 && forall j :: 0 <= j < 3 ==> IsShuffle(draws[j])
    ensures activeLevelId == Some(CustomLevelId) && customLevel.Some? ==>
      concepts == ConceptTerms(customLevel.value.learnableConcepts)
    ensures !CountsAsLevel(activeLevelId) ==> concepts == [] && next.conceptMastery == prev.conceptMastery
    ensures CountsAsLevel(activeLevelId) && !(activeLevelId == Some(CustomLevelId) && customLevel.Some?) ==>
      var id := activeLevelId.value; var found := FindLevel(AllLevels(curriculum), id);
      && (found.Some? ==> concepts == ConceptTerms(found.value.learnableConcepts))
      && (found.None? && id <= 900 ==> concepts == [])
      && (found.None? && id > 900 ==>
            concepts == ConceptTerms(draws[if id % 10 <= 2 then id % 10 else 0].source.learnableConcepts))
    ensures next.activeQuests == LessonQuests(prev.activeQuests, result, prev.streakDays)
    ensures next.totalXP == prev.totalXP + result.totalXP
    ensures next.level == CalculateLevel(next.totalXP)
    ensures next.completedLevels == AddCompleted(prev.completedLevels, activeLevelId)
    ensures next.conceptMastery == ApplyMastery(prev.conceptMastery, concepts, MasteryDelta(result.mistakeCount))
    ensures next.unlockedAchievements ==
      prev.unlockedAchievements + Newly(prev.unlockedAchievements, Simulated(prev, next.totalXP), result, AchievementIds)
    ensures next.gems == prev.gems + 8 + (if result.perfectBonus > 0 then 5 else 0)
    ensures next.lessonsCompleted ==
      if activeLevelId == Some(SmartWorkoutId) then prev.lessonsCompleted + 1 else |next.completedLevels|
    ensures next.perfectLessons == if result.mistakeCount == 0 then prev.perfectLessons + 1 else prev.perfectLessons
    ensures next == prev.(activeQuests := next.activeQuests, totalXP := next.totalXP, level := next.level,
                          gems := next.gems, completedLevels := next.completedLevels,
                          lessonsCompleted := next.lessonsCompleted, perfectLessons := next.perfectLessons,
                          unlockedAchievements := next.unlockedAchievements, conceptMastery := next.conceptMastery)
    ensures NoDup(prev.completedLevels) ==> NoDup(next.completedLevels)
    ensures NoDup(prev.unlockedAchievements) ==> NoDup(next.unlockedAchievements)
    ensures forall c :: c in concepts ==> c in next.conceptMastery && 0 <= next.conceptMastery[c] <= 100
  {
    concepts := [];
    if activeLevelId == Some(CustomLevelId) && customLevel.Some? {
      concepts := ConceptTerms(customLevel.value.learnableConcepts);
    } else if CountsAsLevel(activeLevelId) {
      var level := GetLevelById(curriculum, activeLevelId.value, adjective, topic, draws);
      if level.Some? {
        concepts := ConceptTerms(level.value.learnableConcepts);
      }
    }
    var quests := LessonQuests(prev.activeQuests, result, prev.streakDays);
    var newTotalXP := prev.totalXP + result.totalXP;
    var newLevel := CalculateLevel(newTotalXP);
    var newCompletedLevels := prev.completedLevels;
    if CountsAsLevel(activeLevelId) && activeLevelId.value !in prev.completedLevels {
      newCompletedLevels := prev.completedLevels + [activeLevelId.value];
    }
    var updatedMastery := UpdateMastery(prev.conceptMastery, concepts, result.mistakeCount);
    var newlyUnlocked := CollectAchievements(prev.unlockedAchievements, Simulated(prev, newTotalXP), result);
    next := prev.(
      activeQuests := quests,
      totalXP := newTotalXP,
      level := newLevel,
      gems := prev.gems + 8 + (if result.perfectBonus > 0 then 5 else 0),
      completedLevels := newCompletedLevels,
      lessonsCompleted := if activeLevelId == Some(SmartWorkoutId) then prev.lessonsCompleted + 1 else |newCompletedLevels|,
      perfectLessons := if result.mistakeCount == 0 then prev.perfectLessons + 1 else prev.perfectLessons,
      unlockedAchievements := prev.unlockedAchievements + newlyUnlocked,
      conceptMastery := updatedMastery);
    AddCompletedEffect(prev.completedLevels, activeLevelId);
    AchievementIdsDistinct();
    if NoDup(prev.unlockedAchievements) {
      NewlyKeepsNoDup(prev.unlockedAchievements, Simulated(prev, newTotalXP), result, AchievementIds);
    }
    forall c | c in concepts
      ensures c in next.conceptMastery && 0 <= next.conceptMastery[c] <= 100
    {
      ApplyMasteryInRange(prev.conceptMastery, concepts, MasteryDelta(result.mistakeCount), c);
    }
  }

  /** The achievement ids are distinct. */
  lemma AchievementIdsDistinct()
    ensures NoDup(AchievementIds)
  {
  }

  /** `isUnit1Complete`: all ten levels 101 to 110 are completed. */
  function Unit1Complete(s: UserStats): (r: bool)
    ensures r <==> forall id :: 101 <= id <= 110 ==> id in s.completedLevels
  {
    forall id :: id in Unit1LevelIds ==> id in s.completedLevels
  }

  const Unit1LevelIds: seq<int> := [101, 102, 103, 104, 105, 106, 107, 108, 109, 110]
}
