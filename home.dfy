// frontend/screens/Home.tsx: the learning path. Which level is next, which
// levels are locked, the two countdown texts, the infinite-scroll feed of
// units and the gates of the quest-reset and Smart Workout buttons. The
// clock reading is the `diff` parameter of the countdowns.

module Home {
  import opened Types
  import opened Text
  import opened Constants
  import Game

  // ---------------------------------------------------------------- next level and lock flags

  /** The index of the first visible level that is not completed, or |levels|. */
  function NextIndex(levels: seq<Level>, completed: seq<int>): (i: nat)
    ensures i <= |levels|
    ensures forall j :: 0 <= j < i ==> levels[j].id in completed
    ensures i < |levels| ==> levels[i].id !in completed
  {
    if levels == [] then 0
    else if levels[0].id !in completed then 0
    else 1 + NextIndex(levels[1..], completed)
  }

  /** `currentActiveId`: the id of `visibleLevels.find(l => !completedLevels.includes(l.id))`, or -1. */
  function CurrentActiveId(levels: seq<Level>, completed: seq<int>): int {
    var i := NextIndex(levels, completed);
    if i < |levels| then levels[i].id else -1
  }

  /** No uncompleted level comes before the next index. */
  lemma {:induction false} NextIndexAtMost(levels: seq<Level>, completed: seq<int>, i: nat)
    requires i < |levels| && levels[i].id !in completed
    ensures NextIndex(levels, completed) <= i
  {
    if i > 0 && levels[0].id in completed {
      NextIndexAtMost(levels[1..], completed, i - 1);
    }
  }

  /** The active id is -1 when every visible level is completed. */
  lemma CurrentActiveIdAllDone(levels: seq<Level>, completed: seq<int>)
    requires forall j :: 0 <= j < |levels| ==> levels[j].id in completed
    ensures CurrentActiveId(levels, completed) == -1
  {
  }

  /** The active id belongs to the first uncompleted level in path order. */
  lemma CurrentActiveIdIsFirstOpen(levels: seq<Level>, completed: seq<int>, i: nat)
    requires i < |levels| && levels[i].id !in completed
    requires forall j :: 0 <= j < i ==> levels[j].id in completed
    ensures CurrentActiveId(levels, completed) == levels[i].id
  {
    NextIndexAtMost(levels, completed, i);
  }

  /** The ids of the levels on the path, in order. */
  function LevelIds(levels: seq<Level>): seq<int> {
    seq(|levels|, i requires 0 <= i < |levels| => levels[i].id)
  }

  /** `visibleLevels.findIndex(l => l.id === id)`. */
  function IndexOf(levels: seq<Level>, id: int): (i: int)
    ensures -1 <= i < |levels|
    ensures i >= 0 ==> levels[i].id == id && forall j :: 0 <= j < i ==> levels[j].id != id
    ensures i == -1 ==> forall j :: 0 <= j < |levels| ==> levels[j].id != id
  {
    assert forall j :: 0 <= j < |levels| ==> LevelIds(levels)[j] == levels[j].id;
    FirstIndex(LevelIds(levels), id)
  }

  datatype Flags = Flags(isCompleted: bool, isLocked: bool, isCurrent: bool)

  /** The flags of a level on the path: locked when it is not the first level and
      the level before its first occurrence is not completed. */
  function LevelFlags(levels: seq<Level>, completed: seq<int>, level: Level): Flags {
    var globalIndex := IndexOf(levels, level.id);
    var isFirst := globalIndex == 0;
    var isCompleted := level.id in completed;
    var isLocked := !isFirst && globalIndex >= 1 && levels[globalIndex - 1].id !in completed;
    Flags(isCompleted, isLocked, !isLocked && !isCompleted)
  }

  /** The first level on the path is never locked; with distinct ids, any other
      level is locked exactly when its predecessor is not completed. A level is
      current exactly when it is neither locked nor completed. */
  lemma LevelFlagsSpec(levels: seq<Level>, completed: seq<int>, i: nat)
    requires i < |levels|
    requires forall a, b :: 0 <= a < b < |levels| ==> levels[a].id != levels[b].id
    ensures var f := LevelFlags(levels, completed, levels[i]);
      && (i == 0 ==> !f.isLocked)
      && (i > 0 ==> (f.isLocked <==> levels[i - 1].id !in completed))
      && (f.isCompleted <==> levels[i].id in completed)
      && (f.isCurrent <==> !f.isLocked && !f.isCompleted)
  {
    assert IndexOf(levels, levels[i].id) == i;
  }

  /** The level named by `currentActiveId` is drawn as the current one. */
  lemma NextLevelIsCurrent(levels: seq<Level>, completed: seq<int>)
    requires NextIndex(levels, completed) < |levels|
    ensures LevelFlags(levels, completed, levels[NextIndex(levels, completed)]).isCurrent
  {
    var n := NextIndex(levels, completed);
    var g := IndexOf(levels, levels[n].id);
    assert g == n;
  }

  /** Every level past the next one whose predecessor is open is locked, so, with
      distinct ids, no level after the next one is current unless its
      predecessor was completed out of order. */
  lemma LevelAfterNextLocked(levels: seq<Level>, completed: seq<int>)
    requires NextIndex(levels, completed) + 1 < |levels|
    requires forall a, b :: 0 <= a < b < |levels| ==> levels[a].id != levels[b].id
    ensures LevelFlags(levels, completed, levels[NextIndex(levels, completed) + 1]).isLocked
  {
    var n := NextIndex(levels, completed);
    LevelFlagsSpec(levels, completed, n + 1);
  }

  // ---------------------------------------------------------------- countdowns

  /** The refill countdown for `diff` milliseconds left: "00:00" when the time is up,
      otherwise whole minutes, a colon and the seconds padded to two digits. */
  function RefillCountdown(diff: int): string {
    if diff <= 0 then "00:00"
    else
      var m := diff / 60000;
      var s := (diff / 1000) % 60;
      NatToString(m) + ":" + Pad2(s)
  }

  /** The displayed minutes and seconds together are the whole seconds left, and
      the seconds field is below 60. */
  lemma RefillCountdownSpec(diff: int)
    ensures diff <= 0 ==> RefillCountdown(diff) == "00:00"
    ensures diff > 0 ==>
      var m := diff / 60000; var s := (diff / 1000) % 60;
      && s < 60 && m * 60 + s == diff / 1000
      && RefillCountdown(diff) == NatToString(m) + ":" + Pad2(s)
      && RefillCountdown(diff)[|NatToString(m)|] == ':'
  {
    if diff > 0 {
      var secs := diff / 1000;
      assert diff / 60000 == secs / 60;
    }
  }

  /** The countdown to the next daily quests, `h:mm:ss`, for `diff` milliseconds to midnight. */
  function QuestCountdown(diff: nat): string {
    var h := diff / 3600000;
    var m := (diff % 3600000) / 60000;
    var s := (diff % 60000) / 1000;
    NatToString(h) + ":" + Pad2(m) + ":" + Pad2(s)
  }

  /** Hours, minutes and seconds shown add up to the whole seconds left, with
      minutes and seconds below 60 and padded to two digits. */
  lemma QuestCountdownSpec(diff: nat)
    ensures var h, m, s := diff / 3600000, (diff % 3600000) / 60000, (diff % 60000) / 1000;
      && m < 60 && s < 60
      && h * 3600 + m * 60 + s == diff / 1000
      && QuestCountdown(diff) == NatToString(h) + ":" + Pad2(m) + ":" + Pad2(s)
      && |QuestCountdown(diff)| == |NatToString(h)| + 6
  {
    HoursField(diff);
    MinutesField(diff);
    SecondsField(diff);
    SecondsSplit(diff / 1000);
  }

  /** Whole seconds are hours, minutes below 60 and seconds below 60. */
  lemma SecondsSplit(secs: nat)
    ensures secs == 3600 * (secs / 3600) + 60 * ((secs % 3600) / 60) + secs % 60
    ensures (secs % 3600) / 60 < 60
  {
    var r := secs % 3600;
    assert secs == 3600 * (secs / 3600) + r;
    assert r == 60 * (r / 60) + r % 60;
    assert r % 60 == secs % 60 by {
      assert secs == 60 * (60 * (secs / 3600) + r / 60) + r % 60;
    }
  }

  lemma {:induction false} MulAtLeast(d: int, k: int)
    decreases k
    requires d > 0 && k >= 1
    ensures d * k >= d
  {
    if k > 1 {
      MulAtLeast(d, k - 1);
      assert d * k == d * (k - 1) + d;
    }
  }

  /** Division and remainder are determined by any quotient and remainder in range. */
  lemma DivModOf(n: int, d: int, q: int, r: int)
    requires d > 0 && 0 <= r < d && n == d * q + r
    ensures n / d == q && n % d == r
  {
    var q0, r0 := n / d, n % d;
    if q > q0 {
      MulAtLeast(d, q - q0);
    } else if q < q0 {
      MulAtLeast(d, q0 - q);
    }
  }

  lemma HoursField(diff: nat)
    ensures diff / 3600000 == (diff / 1000) / 3600
  {
    var secs, e := diff / 1000, diff % 1000;
    var h, r := secs / 3600, secs % 3600;
    assert diff == 3600000 * h + (1000 * r + e);
    DivModOf(diff, 3600000, h, 1000 * r + e);
  }

  lemma MinutesField(diff: nat)
    ensures (diff % 3600000) / 60000 == ((diff / 1000) % 3600) / 60
  {
    var secs, e := diff / 1000, diff % 1000;
    var h, r := secs / 3600, secs % 3600;
    var m, s := r / 60, r % 60;
    assert diff == 3600000 * h + (1000 * r + e);
    DivModOf(diff, 3600000, h, 1000 * r + e);
    assert 1000 * r + e == 60000 * m + (1000 * s + e);
    DivModOf(1000 * r + e, 60000, m, 1000 * s + e);
  }

  lemma SecondsField(diff: nat)
    ensures (diff % 60000) / 1000 == (diff / 1000) % 60
  {
    var secs, e := diff / 1000, diff % 1000;
    var m, s := secs / 60, secs % 60;
    assert diff == 60000 * m + (1000 * s + e);
    DivModOf(diff, 60000, m, 1000 * s + e);
    DivModOf(1000 * s + e, 1000, s, e);
  }

  // ---------------------------------------------------------------- gates

  /** The quest-reset button is offered on unfinished quests and forwards the
      click only with at least 50 gems. */
  predicate ResetForwarded(q: Quest, userGems: int) {
    !q.completed && userGems >= 50
  }

  /** The button's gem gate matches the handler's: a click it swallows would not
      have changed anything either. */
  lemma ResetGateAgreesWithHandler(s: UserStats, q: Quest, pick: nat)
    requires !q.completed && !ResetForwarded(q, s.gems)
    ensures Game.ResetQuest(s, q.id, pick) == s
  {
  }

  /** `hasWeakConcepts`: some concept has a mastery score below 60. */
  predicate HasWeakConcepts(mastery: map<string, int>) {
    exists c :: c in mastery && mastery[c] < 60
  }

  /** A concept practised once in a lesson with mistakes, from a score below 70,
      is weak afterwards, so the Smart Workout button shows. */
  lemma MistakesShowSmartWorkout(m: map<string, int>, concepts: seq<string>, mistakes: nat, c: string)
    requires mistakes > 0 && multiset(concepts)[c] == 1 && Game.Score(m, c) < 70
    ensures HasWeakConcepts(Game.ApplyMastery(m, concepts, Game.MasteryDelta(mistakes)))
  {
    var after := Game.ApplyMastery(m, concepts, Game.MasteryDelta(mistakes));
    assert c in concepts;
    Game.ApplyMasteryInRange(m, concepts, Game.MasteryDelta(mistakes), c);
    Game.ApplyMasteryOnce(m, concepts, Game.MasteryDelta(mistakes), c);
    assert after[c] < 60;
  }

  // ---------------------------------------------------------------- the unit feed

  /** Every unit has at least one level. */
  predicate UnitsHaveLevels(units: seq<Unit>) {
    forall k :: 0 <= k < |units| ==> |units[k].levels| > 0
  }

  /** The infinite-scroll state: the displayed units and the loading flag. */
  class UnitFeed {
    var displayedUnits: seq<Unit>
    var isLoadingMore: bool

    ghost predicate Valid()
      reads this
    {
      |displayedUnits| > 0 && UnitsHaveLevels(displayedUnits)
    }

    constructor (curriculum: seq<Unit>)
      requires |curriculum| > 0 && UnitsHaveLevels(curriculum)
      ensures Valid() && displayedUnits == curriculum && !isLoadingMore
    {
      displayedUnits := curriculum;
      isLoadingMore := false;
    }

    /** `loadMoreUnits`: ignored while a load is pending; otherwise starts one. */
    method LoadMore() returns (started: bool)
      modifies this
      ensures started == !old(isLoadingMore)
      ensures isLoadingMore && displayedUnits == old(displayedUnits)
    {
      if isLoadingMore {
        return false;
      }
      isLoadingMore := true;
      return true;
    }

    /** The delayed part of `loadMoreUnits`: one generated unit numbered after the
        last one, with levels from `(id) * 100 + 1`, is appended. (The source also
        reads the id of the last unit's last level, and never uses it.) */
    method FinishLoading(adjective: string, topic: string, draws: seq<Draw>)
      requires Valid()
      requires |draws| == 3 && forall j :: 0 <= j < 3 ==> IsShuffle(draws[j])
      modifies this
      ensures Valid() && !isLoadingMore
      ensures |displayedUnits| == |old(displayedUnits)| + 1
      ensures displayedUnits[..|old(displayedUnits)|] == old(displayedUnits)
      ensures var added := displayedUnits[|displayedUnits| - 1]; var lastId := old(displayedUnits)[|old(displayedUnits)| - 1].id;
        && added.id == lastId + 1
        && |added.levels| == 3
        && added.levels[0].id == (lastId + 1) * 100 + 1
        && added.title == "Unidade " + IntToString(lastId + 1) + ": " + adjective + " " + topic
        && forall j :: 0 <= j < 3 ==>
             added.levels[j] == GeneratedLevel((lastId + 1) * 100 + 1 + j, topic + " - Parte " + IntToString(j + 1), draws[j])
    {
      var lastUnit := displayedUnits[|displayedUnits| - 1];
      var nextUnitId := lastUnit.id + 1;
      var startLevelId := nextUnitId * 100 + 1;
      var newUnit := GenerateRandomUnit(nextUnitId, startLevelId, adjective, topic, draws);
      displayedUnits := displayedUnits + [newUnit];
      isLoadingMore := false;
      assert displayedUnits[..|displayedUnits| - 1] == old(displayedUnits);
    }
  }
}
