// frontend/screens/Lesson.tsx: the lesson screen's scoring state machine.
// The component's state variables are the fields of LessonSession and each
// handler is a method; the parent's `hearts`, `isPremium` and `skipTokens`
// props are mirrored as fields, and `setHearts`/`onUseSkip` as updates of them.
// Random shuffles are parameters; timer callbacks are separate methods (the
// wrong-pair reset) or run at once (the all-pairs-matched reward).

module Lesson {
  import opened Types
  import opened Text
  import opened Constants

  datatype Feedback = NoFeedback | CorrectFeedback | WrongFeedback

  /** A drag-and-drop tile, `{ id, text }`. */
  datatype Segment = Segment(id: string, text: string)

  /** What `handleContinue` and `handleSkipQuestion` lead to. */
  datatype Outcome =
    | Ignored               // the handler returned at once
    | Quit                  // `onQuit()`: out of hearts
    | Retry                 // a wrong answer: the same question again
    | Advanced              // the next question
    | Finished(result: LessonResult)   // `onComplete(result)`

  // ---------------------------------------------------------------- scoring

  /** The result reported at the end of a lesson, from the three counters. */
  function FinalResult(correctCount: nat, mistakeCount: nat, maxCombo: nat): (r: LessonResult)
    ensures r.correctCount == correctCount && r.mistakeCount == mistakeCount && r.maxCombo == maxCombo
    ensures r.totalXP == r.baseXP + r.comboBonus + r.perfectBonus
    ensures r.perfectBonus == (if mistakeCount == 0 then PerfectLessonBonus else 0)
  {
    var baseXP := correctCount * BaseXpPerQuestion;
    var comboBonus := maxCombo * ComboBonusMultiplier;
    var perfectBonus := if mistakeCount == 0 then PerfectLessonBonus else 0;
    LessonResult(baseXP, comboBonus, perfectBonus, baseXP + comboBonus + perfectBonus, correctCount, mistakeCount, maxCombo)
  }

  /** Since the best combo never exceeds the correct answers, a lesson is worth at
      most 12 XP per correct answer plus the perfect bonus, and at least 10 per
      correct answer. */
  lemma FinalResultBounds(correctCount: nat, mistakeCount: nat, maxCombo: nat)
    requires maxCombo <= correctCount
    ensures 10 * correctCount <= FinalResult(correctCount, mistakeCount, maxCombo).totalXP <= 12 * correctCount + 20
  {
  }

  /** The extra gems of lesson completion (`perfectBonus > 0`) are paid exactly
      for lessons without mistakes, which are also the ones that satisfy the
      `perfectionist` achievement. */
  lemma PerfectBonusIffNoMistakes(correctCount: nat, mistakeCount: nat, maxCombo: nat, stats: UserStats)
    ensures var r := FinalResult(correctCount, mistakeCount, maxCombo);
      && (r.perfectBonus > 0 <==> mistakeCount == 0)
      && (r.perfectBonus > 0 <==> AchievementCondition("perfectionist", stats, r))
  {
  }

  // ---------------------------------------------------------------- answer checking

  function Concat(parts: seq<string>): string {
    if parts == [] then "" else parts[0] + Concat(parts[1..])
  }

  /** The texts of the tiles, in order. */
  function Texts(segments: seq<Segment>): seq<string> {
    seq(|segments|, k requires 0 <= k < |segments| => segments[k].text)
  }

  /** Drag and drop: the chosen tiles, joined, spell the joined solution. */
  predicate DragDropCorrect(selected: seq<Segment>, solution: seq<string>) {
    Concat(Texts(selected)) == Concat(solution)
  }

  /** Fill in the blank: equal after trimming and lower-casing; no expected answer means wrong. */
  predicate FillBlankCorrect(input: string, correctAnswer: Option<string>) {
    correctAnswer.Some? && Lower(Strip(input)) == Lower(Strip(correctAnswer.value))
  }

  /** `options.find(o => o.isCorrect)`. */
  function FirstCorrectOption(options: seq<AnswerOption>): (r: Option<AnswerOption>)
    ensures r.Some? ==> r.value in options && r.value.isCorrect
    ensures r.None? ==> forall k :: 0 <= k < |options| ==> !options[k].isCorrect
  {
    if options == [] then None
    else if options[0].isCorrect then Some(options[0])
    else FirstCorrectOption(options[1..])
  }

  /** `selectedOption === correctOption?.id`: null never equals undefined. */
  predicate OptionCorrect(selected: Option<string>, options: seq<AnswerOption>) {
    var c := FirstCorrectOption(options);
    c.Some? && selected == Some(c.value.id)
  }

  /** The verdict of `handleCheck` for a question that is not a pair match. */
  predicate AnswerCorrect(q: Question, selectedOption: Option<string>, input: string, selected: seq<Segment>) {
    match q.kind
    case DragAndDrop => DragDropCorrect(selected, q.segments)
    case FillInBlank => FillBlankCorrect(input, q.correctAnswer)
    case Speaking => selectedOption == Some("spoken")
    case _ => OptionCorrect(selectedOption, q.options)
  }

  /** Picking the tiles of the solution in order is always accepted. */
  lemma DragDropExactOrder(selected: seq<Segment>, solution: seq<string>)
    requires Texts(selected) == solution
    ensures DragDropCorrect(selected, solution)
  {
  }

  /** A choice question is answered correctly exactly by the id of its first
      correct option; a question without a correct option cannot be answered. */
  lemma OptionCorrectIff(selected: Option<string>, options: seq<AnswerOption>)
    ensures OptionCorrect(selected, options) <==>
      exists k :: 0 <= k < |options| && options[k].isCorrect && selected == Some(options[k].id)
                  && forall j :: 0 <= j < k ==> !options[j].isCorrect
  {
    if OptionCorrect(selected, options) {
      var k := FirstCorrectIndex(options);
      assert options[k].isCorrect && selected == Some(options[k].id);
    }
    if exists k :: 0 <= k < |options| && options[k].isCorrect && selected == Some(options[k].id)
                   && forall j :: 0 <= j < k ==> !options[j].isCorrect {
      var k :| 0 <= k < |options| && options[k].isCorrect && selected == Some(options[k].id)
               && forall j :: 0 <= j < k ==> !options[j].isCorrect;
      FirstCorrectAt(options, k);
    }
  }

  /** The index of the option `find` returns. */
  function FirstCorrectIndex(options: seq<AnswerOption>): (k: nat)
    requires FirstCorrectOption(options).Some?
    ensures k < |options| && options[k] == FirstCorrectOption(options).value
    ensures forall j :: 0 <= j < k ==> !options[j].isCorrect
  {
    if options[0].isCorrect then 0 else 1 + FirstCorrectIndex(options[1..])
  }

  lemma {:induction false} FirstCorrectAt(options: seq<AnswerOption>, k: nat)
    requires k < |options| && options[k].isCorrect
    requires forall j :: 0 <= j < k ==> !options[j].isCorrect
    ensures FirstCorrectOption(options) == Some(options[k])
  {
    if k > 0 {
      FirstCorrectAt(options[1..], k - 1);
    }
  }

  lemma {:induction false} TrimStartSpace(s: string)
    decreases |s|
    ensures TrimStart(s + " ") == TrimStart(s) + " " || (TrimStart(s + " ") == "" && TrimStart(s) == "")
  {
    if s != [] && IsSpace(s[0]) {
      assert (s + " ")[1..] == s[1..] + " ";
      TrimStartSpace(s[1..]);
    } else if s == [] {
      assert TrimStart(" ") == TrimStart(""[..0]);
    }
  }

  /** Spaces typed around the answer do not change the verdict. */
  lemma FillBlankIgnoresPadding(input: string, correctAnswer: Option<string>)
    ensures FillBlankCorrect(" " + input + " ", correctAnswer) == FillBlankCorrect(input, correctAnswer)
  {
    assert (" " + input + " ")[1..] == input + " ";
    assert TrimStart(" " + input + " ") == TrimStart(input + " ");
    TrimStartSpace(input);
    var t := TrimStart(input);
    if TrimStart(input + " ") == t + " " {
      assert (t + " ")[..|t + " "| - 1] == t;
      assert TrimEnd(t + " ") == TrimEnd(t);
    }
  }

  /** The expected answer itself, in any letter case of ASCII, is accepted. */
  lemma FillBlankAcceptsAnswer(answer: string)
    ensures FillBlankCorrect(answer, Some(answer))
    ensures !FillBlankCorrect(answer, None)
  {
  }

  // ---------------------------------------------------------------- segments and pairs

  /** `list.filter(s => s.id !== id)`. */
  function Without(list: seq<Segment>, id: string): seq<Segment> {
    if list == [] then []
    else if list[0].id == id then Without(list[1..], id)
    else [list[0]] + Without(list[1..], id)
  }

  /** The tiles' ids, in order. */
  function Ids(list: seq<Segment>): seq<string> {
    seq(|list|, k requires 0 <= k < |list| => list[k].id)
  }

  /** Ids unique in a list stay unique in its tail, and none equals the head's. */
  lemma NoDupTail(list: seq<Segment>)
    requires list != [] && NoDup(Ids(list))
    ensures NoDup(Ids(list[1..]))
    ensures forall k :: 1 <= k < |list| ==> list[k].id != list[0].id
  {
    var ids := Ids(list);
    var tail := list[1..];
    forall a, b | 0 <= a < b < |tail|
      ensures Ids(tail)[a] != Ids(tail)[b]
    {
      assert ids[a + 1] != ids[b + 1];
    }
    forall k | 1 <= k < |list|
      ensures list[k].id != list[0].id
    {
      assert ids[0] != ids[k];
    }
  }

  /** Removing a tile whose id is unique in the list removes exactly that tile. */
  lemma {:induction false} WithoutUnique(list: seq<Segment>, seg: Segment)
    decreases |list|
    requires NoDup(Ids(list)) && seg in list
    ensures multiset(Without(list, seg.id)) + multiset{seg} == multiset(list)
  {
    var tail := list[1..];
    assert list == [list[0]] + tail;
    NoDupTail(list);
    if list[0] == seg {
      WithoutAbsent(tail, seg.id);
    } else {
      assert seg in tail;
      var k :| 0 <= k < |tail| && tail[k] == seg;
      assert list[k + 1] == seg;
      WithoutUnique(tail, seg);
      var rest := Without(tail, seg.id);
      assert Without(list, seg.id) == [list[0]] + rest;
    }
  }

  /** Filtering out an id that no tile has changes nothing. */
  lemma {:induction false} WithoutAbsent(list: seq<Segment>, id: string)
    decreases |list|
    requires forall k :: 0 <= k < |list| ==> list[k].id != id
    ensures Without(list, id) == list
  {
    if list != [] {
      WithoutAbsent(list[1..], id);
      assert [list[0]] + list[1..] == list;
    }
  }

  /** `shuffledPairs.find(p => p.id === id)`. */
  function FindPair(pairs: seq<PairItem>, id: string): (r: Option<PairItem>)
    ensures r.Some? ==> r.value in pairs && r.value.id == id
    ensures r.None? ==> forall k :: 0 <= k < |pairs| ==> pairs[k].id != id
  {
    if pairs == [] then None
    else if pairs[0].id == id then Some(pairs[0])
    else FindPair(pairs[1..], id)
  }

  /** `!selectedPairId`: nothing selected, or the empty string. */
  predicate NoSelection(selected: Option<string>) {
    selected.None? || selected.value == ""
  }

  /** The tiles of a drag-and-drop question, `seg-0`, `seg-1`, ... over the
      solution followed by the distractors, before the shuffle: their texts are
      the solution and the distractors in order, and their ids are distinct. */
  function SegmentsOf(q: Question): (r: seq<Segment>)
    ensures Texts(r) == q.segments + q.distractors
    ensures NoDup(Ids(r))
  {
    var all := q.segments + q.distractors;
    var r := seq(|all|, i requires 0 <= i < |all| => Segment("seg-" + IntToString(i), all[i]));
    SegmentIdsDistinct(r);
    r
  }

  /** Tiles numbered `seg-0`, `seg-1`, ... have distinct ids. */
  lemma SegmentIdsDistinct(r: seq<Segment>)
    requires forall i :: 0 <= i < |r| ==> r[i].id == "seg-" + IntToString(i)
    ensures NoDup(Ids(r))
  {
    forall i, j | 0 <= i < j < |r|
      ensures Ids(r)[i] != Ids(r)[j]
    {
      var si, sj := IntToString(i), IntToString(j);
      assert ("seg-" + si)[4..] == si;
      assert ("seg-" + sj)[4..] == sj;
      DecimalValueOfNatToString(i);
      DecimalValueOfNatToString(j);
    }
  }

  /** Two tile lists with distinct ids and no id in common. */
  predicate DistinctTiles(a: seq<Segment>, b: seq<Segment>) {
    NoDup(Ids(a)) && NoDup(Ids(b)) && forall x :: x in Ids(a) ==> x !in Ids(b)
  }

  /** Filtering by id keeps only other ids of the list, each still once. */
  lemma {:induction false} WithoutIds(list: seq<Segment>, id: string)
    decreases |list|
    ensures forall x :: x in Ids(Without(list, id)) ==> x in Ids(list) && x != id
    ensures NoDup(Ids(list)) ==> NoDup(Ids(Without(list, id)))
  {
    if list != [] {
      var tail := list[1..];
      WithoutIds(tail, id);
      forall k | 0 <= k < |tail|
        ensures Ids(tail)[k] == Ids(list)[k + 1]
      {
      }
      if list[0].id != id {
        var w := Without(tail, id);
        assert Without(list, id) == [list[0]] + w;
        assert Ids([list[0]] + w) == [list[0].id] + Ids(w);
        forall x | x in Ids([list[0]] + w)
          ensures x in Ids(list) && x != id
        {
          if x == list[0].id {
            assert Ids(list)[0] == x;
          } else {
            assert x in Ids(w);
            var k :| 0 <= k < |tail| && Ids(tail)[k] == x;
            assert Ids(list)[k + 1] == x;
          }
        }
        if NoDup(Ids(list)) {
          NoDupTail(list);
          forall x | x in Ids(w)
            ensures x != list[0].id
          {
            var k :| 0 <= k < |tail| && Ids(tail)[k] == x;
            assert x == list[k + 1].id;
          }
          NoDupCons(list[0].id, Ids(w));
        }
      }
    }
  }

  /** Removing one tile from a list with distinct ids leaves distinct ids, none
      of them the removed tile's. */
  lemma RemoveAtIds(a: seq<Segment>, k: nat)
    requires k < |a| && NoDup(Ids(a))
    ensures NoDup(Ids(a[..k] + a[k + 1..]))
    ensures forall y :: y in a[..k] + a[k + 1..] ==> y.id != a[k].id
  {
    var rest := a[..k] + a[k + 1..];
    forall m | 0 <= m < |rest|
      ensures rest[m] == a[if m < k then m else m + 1]
      ensures rest[m].id != a[k].id
    {
      var n := if m < k then m else m + 1;
      if n < k {
        assert Ids(a)[n] != Ids(a)[k];
      } else {
        assert Ids(a)[k] != Ids(a)[n];
      }
    }
    forall i, j | 0 <= i < j < |rest|
      ensures Ids(rest)[i] != Ids(rest)[j]
    {
      var ni, nj := if i < k then i else i + 1, if j < k then j else j + 1;
      assert Ids(a)[ni] != Ids(a)[nj];
    }
  }

  /** Taking the last element off one of two equal multisets and the same
      element off the other at position `k` leaves equal multisets. */
  lemma RemoveMatching(a: seq<Segment>, b: seq<Segment>, k: nat)
    requires multiset(a) == multiset(b) && b != [] && k < |a| && a[k] == b[|b| - 1]
    ensures multiset(a[..k] + a[k + 1..]) == multiset(b[..|b| - 1])
  {
    var x := a[k];
    assert a == a[..k] + [x] + a[k + 1..];
    assert b == b[..|b| - 1] + [x];
    assert multiset(a) == multiset(a[..k] + a[k + 1..]) + multiset{x};
    assert multiset(b) == multiset(b[..|b| - 1]) + multiset{x};
    assert multiset(a[..k] + a[k + 1..]) == multiset(a) - multiset{x};
    assert multiset(b[..|b| - 1]) == multiset(b) - multiset{x};
  }

  /** Reordering tiles keeps their ids distinct: a shuffle of distinct tiles is distinct. */
  lemma {:induction false} ShuffleKeepsIds(a: seq<Segment>, b: seq<Segment>)
    decreases |b|
    requires multiset(a) == multiset(b) && NoDup(Ids(a))
    ensures NoDup(Ids(b))
  {
    if b != [] {
      var x := b[|b| - 1];
      var init := b[..|b| - 1];
      assert x in multiset(a);
      var k :| 0 <= k < |a| && a[k] == x;
      var rest := a[..k] + a[k + 1..];
      RemoveMatching(a, b, k);
      RemoveAtIds(a, k);
      ShuffleKeepsIds(rest, init);
      forall m | 0 <= m < |init|
        ensures Ids(init)[m] != x.id
      {
        assert init[m] in multiset(rest);
      }
      NoDupSnoc(Ids(init), x.id);
      assert Ids(b) == Ids(init) + [x.id];
    }
  }

  /** Moving a tile of `from` to the end of `to` keeps the two lists' tiles and
      their distinct ids. */
  lemma MoveTile(from: seq<Segment>, to: seq<Segment>, seg: Segment)
    requires seg in from && DistinctTiles(from, to)
    ensures DistinctTiles(Without(from, seg.id), to + [seg])
    ensures multiset(Without(from, seg.id)) + multiset(to + [seg]) == multiset(from) + multiset(to)
  {
    WithoutIds(from, seg.id);
    WithoutUnique(from, seg);
    var k :| 0 <= k < |from| && from[k] == seg;
    assert Ids(from)[k] == seg.id;
    assert Ids(to + [seg]) == Ids(to) + [seg.id];
    NoDupSnoc(Ids(to), seg.id);
  }

  /** `b` reordered: what a shuffle produces. */
  predicate SameElements<T(==)>(a: seq<T>, b: seq<T>) {
    multiset(a) == multiset(b)
  }

  /** `shouldShowTheory`: a question with a theory card shows it when it is a
      theory question or when its concept has not been seen yet. */
  predicate ShouldShowTheory(q: Question, seen: set<string>) {
    q.theory.Some? && (q.kind == Theory || q.theory.value !in seen)
  }

  // ---------------------------------------------------------------- the screen

  class LessonSession {
    const questions: seq<Question>
    const isPremium: bool
    var hearts: int
    var skipTokens: int
    var currentQuestionIndex: nat
    var selectedOption: Option<string>
    var isCheckSubmitted: bool
    var feedback: Feedback
    var combo: nat
    var maxCombo: nat
    var mistakeCount: nat
    var correctCount: nat
    var matchedPairs: seq<string>
    var selectedPairId: Option<string>
    var shuffledPairs: seq<PairItem>
    var wrongPairIds: seq<string>
    var availableSegments: seq<Segment>
    var selectedSegments: seq<Segment>
    var inputValue: string
    var showTheory: bool
    var seenTheoryConcepts: set<string>

    /** A current question exists, and the best combo lies between the running
        combo and the number of correct answers. */
    ghost predicate Valid()
      reads this`currentQuestionIndex, this`combo, this`maxCombo, this`correctCount
    {
      currentQuestionIndex < |questions| && combo <= maxCombo <= correctCount
    }

    ghost function Current(): Question
      reads this`currentQuestionIndex
      requires currentQuestionIndex < |questions|
    {
      questions[currentQuestionIndex]
    }

    /** For a drag-and-drop question the two tile lists hold, between them,
        exactly the question's tiles, each id once. */
    ghost predicate TilesValid()
      reads this`currentQuestionIndex, this`availableSegments, this`selectedSegments
      requires currentQuestionIndex < |questions|
    {
      Current().kind == DragAndDrop ==>
        && DistinctTiles(availableSegments, selectedSegments)
        && multiset(availableSegments) + multiset(selectedSegments) == multiset(SegmentsOf(Current()))
    }

    /** A right answer: the combo grows, the best combo follows it, one more correct answer. */
    twostate predicate ScoreStep()
      reads this
    {
      && combo == old(combo) + 1
      && maxCombo == (if old(combo) + 1 > old(maxCombo) then old(combo) + 1 else old(maxCombo))
      && correctCount == old(correctCount) + 1
      && mistakeCount == old(mistakeCount) && hearts == old(hearts)
    }

    /** A wrong answer: the combo breaks, one more mistake, a heart lost without premium. */
    twostate predicate ScoreBreak()
      reads this
    {
      && combo == 0 && mistakeCount == old(mistakeCount) + 1
      && maxCombo == old(maxCombo) && correctCount == old(correctCount)
      && hearts == (if isPremium then old(hearts) else old(hearts) - 1)
    }

    /** The score and the hearts as they were. */
    twostate predicate ScoreSame()
      reads this
    {
      && combo == old(combo) && maxCombo == old(maxCombo) && correctCount == old(correctCount)
      && mistakeCount == old(mistakeCount) && hearts == old(hearts)
    }

    constructor (questions: seq<Question>, hearts: int, isPremium: bool, skipTokens: int)
      requires |questions| > 0
      ensures Valid()
      ensures this.questions == questions && this.isPremium == isPremium
      ensures this.hearts == hearts && this.skipTokens == skipTokens && currentQuestionIndex == 0
      ensures selectedOption.None? && !isCheckSubmitted && feedback == NoFeedback
      ensures combo == 0 && maxCombo == 0 && mistakeCount == 0 && correctCount == 0
      ensures matchedPairs == [] && selectedPairId.None? && shuffledPairs == [] && wrongPairIds == []
      ensures availableSegments == [] && selectedSegments == [] && inputValue == ""
      ensures !showTheory && seenTheoryConcepts == {}
    {
      this.questions := questions;
      this.isPremium := isPremium;
      this.hearts := hearts;
      this.skipTokens := skipTokens;
      currentQuestionIndex := 0;
      selectedOption := None;
      isCheckSubmitted := false;
      feedback := NoFeedback;
      combo, maxCombo, mistakeCount, correctCount := 0, 0, 0, 0;
      matchedPairs, selectedPairId, shuffledPairs, wrongPairIds := [], None, [], [];
      availableSegments, selectedSegments := [], [];
      inputValue := "";
      showTheory := false;
      seenTheoryConcepts := {};
    }

    /** The reset effect run when a question is shown: answer state cleared;
        then either the theory card is shown, and the boards are left as they
        were, or a pair match gets a fresh shuffle of its pairs and a drag and
        drop a fresh shuffle of its tiles. */
    method ShowQuestion(pairOrder: seq<PairItem>, segmentOrder: seq<Segment>)
      requires Valid()
      requires SameElements(pairOrder, Current().pairs)
      requires SameElements(segmentOrder, SegmentsOf(Current()))
      modifies this`selectedOption, this`isCheckSubmitted, this`feedback, this`inputValue, this`showTheory
      modifies this`shuffledPairs, this`matchedPairs, this`selectedPairId, this`wrongPairIds
      modifies this`availableSegments, this`selectedSegments
      ensures Valid()
      ensures selectedOption.None? && !isCheckSubmitted && feedback == NoFeedback && inputValue == ""
      ensures ShouldShowTheory(Current(), seenTheoryConcepts) ==>
        && showTheory
        && shuffledPairs == old(shuffledPairs) && matchedPairs == old(matchedPairs)
        && selectedPairId == old(selectedPairId) && wrongPairIds == old(wrongPairIds)
        && availableSegments == old(availableSegments) && selectedSegments == old(selectedSegments)
      ensures !ShouldShowTheory(Current(), seenTheoryConcepts) ==>
        && showTheory == old(showTheory)
        && (Current().kind == PairMatch ==>
              shuffledPairs == pairOrder && matchedPairs == [] && selectedPairId.None? && wrongPairIds == [])
        && (Current().kind != PairMatch ==>
              && shuffledPairs == old(shuffledPairs) && matchedPairs == old(matchedPairs)
              && selectedPairId == old(selectedPairId) && wrongPairIds == old(wrongPairIds))
        && (Current().kind == DragAndDrop ==> availableSegments == segmentOrder && selectedSegments == [])
        && (Current().kind != DragAndDrop ==>
              availableSegments == old(availableSegments) && selectedSegments == old(selectedSegments))
        && TilesValid()
    {
      var q := questions[currentQuestionIndex];
      ClearAnswer();
      inputValue := "";
      if ShouldShowTheory(q, seenTheoryConcepts) {
        showTheory := true;
        return;
      }
      if q.kind == PairMatch {
        shuffledPairs, matchedPairs, selectedPairId, wrongPairIds := pairOrder, [], None, [];
      } else if q.kind == DragAndDrop {
        availableSegments, selectedSegments := segmentOrder, [];
        ShuffleKeepsIds(SegmentsOf(q), segmentOrder);
      }
    }

    /** `handleTheoryContinue`: the card's concept is marked seen and the card
        closes. For a theory question the caller then runs `Continue`, as the
        handler calls `handleContinue`; the boards the card skipped stay as they
        were. */
    method TheoryContinue() returns (thenContinue: bool)
      requires Valid()
      modifies this`seenTheoryConcepts, this`showTheory
      ensures !showTheory
      ensures seenTheoryConcepts ==
        old(seenTheoryConcepts) + (if Current().theory.Some? then {Current().theory.value} else {})
      ensures thenContinue <==> Current().kind == Theory
      ensures Current().theory.Some? ==> !ShouldShowTheory(Current(), seenTheoryConcepts) || Current().kind == Theory
    {
      var q := questions[currentQuestionIndex];
      if q.theory.Some? {
        seenTheoryConcepts := seenTheoryConcepts + {q.theory.value};
      }
      showTheory := false;
      thenContinue := q.kind == Theory;
    }

    /** `incrementCombo`. */
    method IncrementCombo()
      requires Valid()
      modifies this`combo, this`maxCombo, this`correctCount
      ensures Valid() && ScoreStep()
    {
      var newCombo := combo + 1;
      combo := newCombo;
      if newCombo > maxCombo {
        maxCombo := newCombo;
      }
      correctCount := correctCount + 1;
    }

    /** `resetCombo`. */
    method ResetCombo()
      requires Valid()
      modifies this`combo, this`mistakeCount
      ensures Valid()
      ensures combo == 0 && mistakeCount == old(mistakeCount) + 1
    {
      combo := 0;
      mistakeCount := mistakeCount + 1;
    }

    /** The condition of the screen's hearts effect: from the first render in
        which it holds, the effect calls `onQuit` and the lesson is over. */
    predicate OutOfHearts()
      reads this`hearts
    {
      hearts <= 0 && !isPremium
    }

    /** One heart less, for a player without premium (`setHearts(hearts - 1)`). */
    method LoseHeart()
      modifies this`hearts
      ensures hearts == if isPremium then old(hearts) else old(hearts) - 1
    {
      if !isPremium {
        hearts := hearts - 1;
      }
    }

    /** `handleCheck`: ignored for a pair match; otherwise the verdict is recorded,
        a right answer extends the combo and a wrong one costs a heart (without
        premium) and breaks the combo. `quit` reports that the hearts effect
        ends the lesson: a screen already out of hearts is gone and does
        nothing, and a wrong answer that takes the last heart ends it. */
    method Check() returns (verdict: Option<bool>, quit: bool)
      requires Valid()
      modifies this`isCheckSubmitted, this`feedback, this`combo, this`maxCombo, this`correctCount
      modifies this`mistakeCount, this`hearts
      ensures Valid()
      ensures quit <==> OutOfHearts()
      ensures old(OutOfHearts()) ==>
        verdict.None? && ScoreSame() && isCheckSubmitted == old(isCheckSubmitted) && feedback == old(feedback)
      ensures !old(OutOfHearts()) ==> (quit <==> verdict == Some(false) && !isPremium && old(hearts) <= 1)
      ensures !old(OutOfHearts()) && Current().kind == PairMatch ==>
        verdict.None? && ScoreSame() && isCheckSubmitted == old(isCheckSubmitted) && feedback == old(feedback)
      ensures !old(OutOfHearts()) && Current().kind != PairMatch ==>
        verdict == Some(AnswerCorrect(Current(), selectedOption, inputValue, selectedSegments))
      ensures verdict == Some(true) ==> isCheckSubmitted && feedback == CorrectFeedback && ScoreStep()
      ensures verdict == Some(false) ==> isCheckSubmitted && feedback == WrongFeedback && ScoreBreak()
    {
      if OutOfHearts() {
        return None, true;
      }
      var q := questions[currentQuestionIndex];
      if q.kind == PairMatch {
        return None, false;
      }
      var isCorrect := AnswerCorrect(q, selectedOption, inputValue, selectedSegments);
      isCheckSubmitted := true;
      if isCorrect {
        feedback := CorrectFeedback;
        IncrementCombo();
      } else {
        feedback := WrongFeedback;
        LoseHeart();
        ResetCombo();
      }
      verdict := Some(isCorrect);
      quit := OutOfHearts();
    }

    /** The answer state cleared, as both Continue and Skip do first. */
    method ClearAnswer()
      modifies this`feedback, this`isCheckSubmitted, this`selectedOption
      ensures feedback == NoFeedback && !isCheckSubmitted && selectedOption.None?
    {
      feedback := NoFeedback;
      isCheckSubmitted := false;
      selectedOption := None;
    }

    /** The next question, or the end of the lesson with `result`. */
    method Advance(result: LessonResult) returns (outcome: Outcome)
      requires currentQuestionIndex < |questions|
      modifies this`currentQuestionIndex
      ensures currentQuestionIndex < |questions|
      ensures old(currentQuestionIndex) < |questions| - 1 ==>
        outcome == Advanced && currentQuestionIndex == old(currentQuestionIndex) + 1
      ensures old(currentQuestionIndex) == |questions| - 1 ==>
        outcome == Finished(result) && currentQuestionIndex == old(currentQuestionIndex)
    {
      if currentQuestionIndex < |questions| - 1 {
        currentQuestionIndex := currentQuestionIndex + 1;
        outcome := Advanced;
      } else {
        outcome := Finished(result);
      }
    }

    /** `handleContinue`. `reshuffled` is the new tile order when a drag and drop is retried. */
    method Continue(reshuffled: seq<Segment>) returns (outcome: Outcome)
      requires Valid()
      requires SameElements(reshuffled, SegmentsOf(Current()))
      modifies this`feedback, this`isCheckSubmitted, this`selectedOption, this`inputValue
      modifies this`selectedSegments, this`availableSegments, this`currentQuestionIndex
      ensures Valid()
      ensures old(OutOfHearts()) ==>
        && outcome == Quit && feedback == old(feedback) && isCheckSubmitted == old(isCheckSubmitted)
        && selectedOption == old(selectedOption) && inputValue == old(inputValue)
        && selectedSegments == old(selectedSegments) && availableSegments == old(availableSegments)
        && currentQuestionIndex == old(currentQuestionIndex)
      ensures !old(OutOfHearts()) ==>
        feedback == NoFeedback && !isCheckSubmitted && selectedOption.None?
      ensures !old(OutOfHearts()) && old(feedback) == WrongFeedback ==>
        && outcome == Retry && inputValue == "" && currentQuestionIndex == old(currentQuestionIndex)
        && (Current().kind == DragAndDrop ==> selectedSegments == [] && availableSegments == reshuffled)
        && (Current().kind != DragAndDrop ==>
              selectedSegments == old(selectedSegments) && availableSegments == old(availableSegments))
        && TilesValid()
      ensures !old(OutOfHearts()) && old(feedback) != WrongFeedback ==>
        && inputValue == old(inputValue)
        && selectedSegments == old(selectedSegments) && availableSegments == old(availableSegments)
        && (old(currentQuestionIndex) < |questions| - 1 ==>
              outcome == Advanced && currentQuestionIndex == old(currentQuestionIndex) + 1)
        && (old(currentQuestionIndex) == |questions| - 1 ==>
              outcome == Finished(FinalResult(correctCount, mistakeCount, maxCombo))
              && currentQuestionIndex == old(currentQuestionIndex))
    {
      if OutOfHearts() {
        return Quit;
      }
      if feedback == WrongFeedback {
        ClearAnswer();
        inputValue := "";
        if questions[currentQuestionIndex].kind == DragAndDrop {
          selectedSegments := [];
          availableSegments := reshuffled;
          ShuffleKeepsIds(SegmentsOf(Current()), reshuffled);
        }
        return Retry;
      }
      ClearAnswer();
      outcome := Advance(FinalResult(correctCount, mistakeCount, maxCombo));
    }

    /** `handleSkipQuestion`: spends a token and counts the question as answered
        correctly. On the last question the result counts the skipped question
        but uses the best combo from before the skip. A screen out of hearts
        is gone: the skip does nothing and the lesson has quit. */
    method Skip() returns (outcome: Outcome)
      requires Valid()
      modifies this`skipTokens, this`combo, this`maxCombo, this`correctCount
      modifies this`feedback, this`isCheckSubmitted, this`selectedOption, this`currentQuestionIndex
      ensures Valid()
      ensures old(OutOfHearts()) ==>
        && outcome == Quit && skipTokens == old(skipTokens) && ScoreSame()
        && feedback == old(feedback) && isCheckSubmitted == old(isCheckSubmitted)
        && selectedOption == old(selectedOption) && currentQuestionIndex == old(currentQuestionIndex)
      ensures !old(OutOfHearts()) && old(skipTokens) <= 0 ==>
        && outcome == Ignored && skipTokens == old(skipTokens) && ScoreSame()
        && feedback == old(feedback) && isCheckSubmitted == old(isCheckSubmitted)
        && selectedOption == old(selectedOption) && currentQuestionIndex == old(currentQuestionIndex)
      ensures !old(OutOfHearts()) && old(skipTokens) > 0 ==>
        && skipTokens == old(skipTokens) - 1 && ScoreStep()
        && feedback == NoFeedback && !isCheckSubmitted && selectedOption.None?
        && (old(currentQuestionIndex) < |questions| - 1 ==>
              outcome == Advanced && currentQuestionIndex == old(currentQuestionIndex) + 1)
        && (old(currentQuestionIndex) == |questions| - 1 ==>
              outcome == Finished(FinalResult(old(correctCount) + 1, old(mistakeCount), old(maxCombo)))
              && currentQuestionIndex == old(currentQuestionIndex))
    {
      if OutOfHearts() {
        return Quit;
      }
      if skipTokens <= 0 {
        return Ignored;
      }
      var result := FinalResult(correctCount + 1, mistakeCount, maxCombo);
      skipTokens := skipTokens - 1;
      IncrementCombo();
      ClearAnswer();
      outcome := Advance(result);
    }

    /** `handlePairClick(item)`; when the last pair is matched the delayed reward
        (correct feedback and a combo step) is applied at once. `quit` reports
        that the hearts effect ends the lesson: a screen already out of hearts
        is gone and does nothing, and a wrong pair that takes the last heart
        ends it. */
    method PairClick(item: PairItem) returns (quit: bool)
      requires Valid()
      modifies this`selectedPairId, this`matchedPairs, this`wrongPairIds, this`feedback
      modifies this`combo, this`maxCombo, this`correctCount, this`mistakeCount, this`hearts
      ensures Valid()
      ensures quit <==> OutOfHearts()
      ensures old(OutOfHearts()) ==>
        && selectedPairId == old(selectedPairId) && matchedPairs == old(matchedPairs)
        && wrongPairIds == old(wrongPairIds) && feedback == old(feedback) && ScoreSame()
      ensures !old(OutOfHearts()) && quit ==>
        !isPremium && old(hearts) <= 1 && |wrongPairIds| == 2 && mistakeCount == old(mistakeCount) + 1
      ensures !old(OutOfHearts()) && (item.id in old(matchedPairs) || |old(wrongPairIds)| > 0) ==>
        && selectedPairId == old(selectedPairId) && matchedPairs == old(matchedPairs)
        && wrongPairIds == old(wrongPairIds) && feedback == old(feedback) && ScoreSame()
      ensures !old(OutOfHearts()) && item.id !in old(matchedPairs) && old(wrongPairIds) == [] && old(selectedPairId) == Some(item.id) ==>
        && selectedPairId.None? && matchedPairs == old(matchedPairs)
        && wrongPairIds == old(wrongPairIds) && feedback == old(feedback) && ScoreSame()
      ensures !old(OutOfHearts()) && item.id !in old(matchedPairs) && old(wrongPairIds) == []
              && old(selectedPairId) != Some(item.id) && NoSelection(old(selectedPairId)) ==>
        && selectedPairId == Some(item.id) && matchedPairs == old(matchedPairs)
        && wrongPairIds == old(wrongPairIds) && feedback == old(feedback) && ScoreSame()
      ensures !old(OutOfHearts()) && item.id !in old(matchedPairs) && old(wrongPairIds) == []
              && old(selectedPairId) != Some(item.id) && !NoSelection(old(selectedPairId)) ==>
        var first := FindPair(shuffledPairs, old(selectedPairId).value);
        && (first.None? ==>
              && selectedPairId == old(selectedPairId) && matchedPairs == old(matchedPairs)
              && wrongPairIds == old(wrongPairIds) && feedback == old(feedback) && ScoreSame())
        && (first.Some? && first.value.pairId == item.id ==>
              && matchedPairs == old(matchedPairs) + [first.value.id, item.id]
              && selectedPairId.None? && wrongPairIds == old(wrongPairIds)
              && (|matchedPairs| == |shuffledPairs| ==> feedback == CorrectFeedback && ScoreStep())
              && (|matchedPairs| != |shuffledPairs| ==> feedback == old(feedback) && ScoreSame()))
        && (first.Some? && first.value.pairId != item.id ==>
              && wrongPairIds == [first.value.id, item.id]
              && selectedPairId == old(selectedPairId) && matchedPairs == old(matchedPairs)
              && feedback == old(feedback) && ScoreBreak())
    {
      if OutOfHearts() {
        return true;
      }
      quit := false;
      if item.id in matchedPairs || |wrongPairIds| > 0 {
        return;
      }
      if selectedPairId == Some(item.id) {
        selectedPairId := None;
        return;
      }
      if NoSelection(selectedPairId) {
        selectedPairId := Some(item.id);
        return;
      }
      var firstItem := FindPair(shuffledPairs, selectedPairId.value);
      if firstItem.None? {
        return;
      }
      if firstItem.value.pairId == item.id {
        var newMatched := matchedPairs + [firstItem.value.id, item.id];
        matchedPairs := newMatched;
        selectedPairId := None;
        if |newMatched| == |shuffledPairs| {
          feedback := CorrectFeedback;
          IncrementCombo();
        }
      } else {
        wrongPairIds := [firstItem.value.id, item.id];
        LoseHeart();
        ResetCombo();
        quit := OutOfHearts();
      }
    }

    /** The delayed callback after a wrong pair: the pair is released. */
    method ClearWrongPair()
      modifies this`wrongPairIds, this`selectedPairId
      ensures wrongPairIds == [] && selectedPairId.None?
    {
      wrongPairIds := [];
      selectedPairId := None;
    }

    /** `handleSegmentClick(segment, isSelected)`: after submission nothing moves;
        otherwise the tile leaves one list and is appended to the other, and
        when its id is unique the two lists together keep the same tiles; a
        drag-and-drop board whose tiles are all distinct stays so. */
    method SegmentClick(segment: Segment, isSelected: bool)
      modifies this`availableSegments, this`selectedSegments
      ensures old(isCheckSubmitted) ==>
        availableSegments == old(availableSegments) && selectedSegments == old(selectedSegments)
      ensures !old(isCheckSubmitted) && isSelected ==>
        && selectedSegments == Without(old(selectedSegments), segment.id)
        && availableSegments == old(availableSegments) + [segment]
      ensures !old(isCheckSubmitted) && !isSelected ==>
        && availableSegments == Without(old(availableSegments), segment.id)
        && selectedSegments == old(selectedSegments) + [segment]
      ensures !old(isCheckSubmitted) && isSelected && segment in old(selectedSegments) && NoDup(Ids(old(selectedSegments))) ==>
        multiset(availableSegments) + multiset(selectedSegments) == old(multiset(availableSegments) + multiset(selectedSegments))
      ensures !old(isCheckSubmitted) && !isSelected && segment in old(availableSegments) && NoDup(Ids(old(availableSegments))) ==>
        multiset(availableSegments) + multiset(selectedSegments) == old(multiset(availableSegments) + multiset(selectedSegments))
      ensures (currentQuestionIndex < |questions| && !old(isCheckSubmitted) && old(TilesValid())
               && (if isSelected then segment in old(selectedSegments) else segment in old(availableSegments)))
              ==> TilesValid()
    {
      if isCheckSubmitted {
        return;
      }
      if isSelected {
        if segment in selectedSegments && NoDup(Ids(selectedSegments)) {
          WithoutUnique(selectedSegments, segment);
        }
        if currentQuestionIndex < |questions| && TilesValid() && segment in selectedSegments
          && Current().kind == DragAndDrop {
          MoveTile(selectedSegments, availableSegments, segment);
        }
        selectedSegments := Without(selectedSegments, segment.id);
        availableSegments := availableSegments + [segment];
      } else {
        if segment in availableSegments && NoDup(Ids(availableSegments)) {
          WithoutUnique(availableSegments, segment);
        }
        if currentQuestionIndex < |questions| && TilesValid() && segment in availableSegments
          && Current().kind == DragAndDrop {
          MoveTile(availableSegments, selectedSegments, segment);
        }
        availableSegments := Without(availableSegments, segment.id);
        selectedSegments := selectedSegments + [segment];
      }
    }
  }
}
