# PLCAD core, modelled in Dafny

PLCAD is a gamified programming-course app in the style of Duolingo. A player works through units of levels. Each level is a lesson of questions: multiple choice, code completion, drag-and-drop ordering, fill-in-the-blank and pair matching. Wrong answers cost hearts, which refill over time. Finished lessons earn XP, gems, daily-quest progress, concept mastery and achievements. Gems buy items in a shop; a subscription and gem packs go through a card-payment sheet.

This project models the core of that app, together with two maintenance scripts the repository ships:

- `Conflicts` (`frontend/resolve_conflicts.py`) resolves git conflict blocks by keeping the incoming side. `Excision` (`frontend/fix_constants.py`) deletes a duplicated block between two marker comments.
- `Types`, `Text` and `Constants` hold the data types (`frontend/types.ts`), the string helpers every screen uses, and the rules from `frontend/constants.ts`. Those rules are the XP curve and `calculateLevel`, the achievement conditions, the shop catalogue and quest templates, and the generated levels of the infinite scroll with `getLevelById`.
- `Game` holds the `UserStats` reducers of `frontend/App.tsx`: quest progress, claim and reset, heart regeneration and loss, purchases, lesson completion and unit-1 completion.
- `Lesson` models the lesson screen (`frontend/screens/Lesson.tsx`) as a class. It covers answer checking for every question type, combo and hearts, skipping, retrying missed questions, pair matching, segment ordering and the final result.
- `Home`, `Review`, `CodeDebug`, `Payment`, `Resize`, `Profile`, `Leaderboard` and `Shop` model the logic of the other screens and components. That logic is the level path, the countdowns and the infinite feed; the review filters and mastery tiers; the code-debug answer check; card and expiry formatting with the payment sheet; the resizable frame; career ranks and name editing; the league table; and the shop's categories, clicks and payment timer.

Screens whose state the source changes step by step (the lesson, the shop, the payment sheet, the code-debug screen, the resizable frame, the name editor and the unit feed) are classes whose methods are the event handlers. Each method states the new value of every field it may change. The reducers and the pure helpers are functions, with lemmas for the properties the app relies on. A loop in the source is a method with a `for` loop, proved equal to the function that specifies it: the conflict resolver, the mastery and achievement loops, the review's concept collection, the failing-file collection, `generateRandomUnit` and `getLevelById`.

Clocks, random draws and user input are parameters. React timers are methods that the caller runs when the timer fires. File reads and writes become a sequence of lines in and out.

`resolve_conflicts.py` drops a `=======` or `>>>>>>>` line even outside a conflict block, because those two checks do not test `in_conflict` (`Conflicts.StraySeparatorDropped`, `Conflicts.StrayEndDropped`).

## Model

| member | source | states |
|---|---|---|
| Conflicts.ResolveConflicts | frontend/resolve_conflicts.py:9-32 | the script's loop with its two flags returns exactly `Resolve(lines)` |
| Conflicts.RunOne | frontend/resolve_conflicts.py:13-32 | the loop over one line is one step: the step's flags, and the line itself or nothing |
| Conflicts.RunAppend | frontend/resolve_conflicts.py:13-32 | running over `a + b` equals running over `a`, then over `b` from the flags `a` left |
| Conflicts.RunIsSubsequence | frontend/resolve_conflicts.py:26-32 | every emitted line is an unmodified input line, in input order |
| Conflicts.ResolveIsSubsequence | frontend/resolve_conflicts.py:13-32 | the resolved file is a subsequence of the original |
| Conflicts.RunDropsMarkers | frontend/resolve_conflicts.py:14-24 | no line whose stripped text starts with a marker is emitted, whatever the flags |
| Conflicts.ResolveDropsMarkers | frontend/resolve_conflicts.py:14-24 | the resolved file holds no marker line |
| Conflicts.RunWithoutMarkers | frontend/resolve_conflicts.py:31-32 | outside a block, marker-free lines all pass and the flags stay put |
| Conflicts.ResolveWithoutMarkers | frontend/resolve_conflicts.py:13-32 | a file without marker lines is returned unchanged |
| Conflicts.ResolveIdempotent | frontend/resolve_conflicts.py:13-32 | running the script on its own output changes nothing |
| Conflicts.RunKeepsConsistent | frontend/resolve_conflicts.py:10-24 | `in_head` implies `in_conflict` is preserved by every run |
| Conflicts.RunInHead | frontend/resolve_conflicts.py:26-28 | inside the HEAD side, marker-free lines are all skipped and the flags stay |
| Conflicts.RunInIncoming | frontend/resolve_conflicts.py:26-30 | inside the incoming side, marker-free lines are all kept and the flags stay |
| Conflicts.WellFormedBlock | frontend/resolve_conflicts.py:13-32 | a begin/HEAD/separator/incoming/end block followed by `rest` resolves to the incoming lines followed by the resolution of `rest` |
| Conflicts.StraySeparatorDropped | frontend/resolve_conflicts.py:18-20 | a separator line outside any block is dropped, as its check ignores `in_conflict` |
| Conflicts.StrayEndDropped | frontend/resolve_conflicts.py:21-24 | an end marker outside any block is dropped |
| Conflicts.OtherLabelKept | frontend/resolve_conflicts.py:14 | a `<<<<<<<` line with another label than `HEAD` opens no block and is kept outside one |
| Excision.IndicesSound | frontend/fix_constants.py:10 | `indices` lists only lines containing the marker, strictly ascending |
| Excision.IndicesComplete | frontend/fix_constants.py:10 | every line containing the marker is listed |
| Excision.CountAppend | frontend/fix_constants.py:10 | the marker count of `a + b` is the sum of the counts |
| Excision.FirstTwo | frontend/fix_constants.py:12-14 | with two markers or more, the first two listed are the first two marker lines in the file, with none before or between them |
| Excision.ExcisionShape | frontend/fix_constants.py:12-19 | with two markers or more: the output is `lines[:first] + lines[second:]`, keeps the prefix and suffix, is shorter by `second - first`, has one marker fewer, and starts its first marker at `first` |
| Excision.TooFewUnchanged | frontend/fix_constants.py:24-25 | with fewer than two markers nothing is written and the reported count is the number found |
| Excision.TwoMarkersSettle | frontend/fix_constants.py:12-25 | a file with exactly two markers is a fixed point after one run |
| Excision.ThreeMarkersNotIdempotent | frontend/fix_constants.py:12-19 | with three markers or more a second run deletes another block: the script is not idempotent |
| Game.UpdateQuestsEffect | frontend/App.tsx:122-133 | only unfinished quests of the given kind move: their counter rises by `amount`, they are completed exactly when it reaches the target, nothing else in them changes; every other quest is unchanged |
| Game.UpdateQuestsCommute | frontend/App.tsx:122-133 | updates of two different kinds commute, so the order of queued updates does not matter |
| Game.QuestIndex | frontend/App.tsx:136 | `find` by id: the first index with that id, or -1 exactly when no quest has it |
| Game.ClaimQuestEffect | frontend/App.tsx:135-144 | claiming a completed, unclaimed quest adds exactly its reward to the gems and marks the quests with that id claimed, changing nothing else; otherwise the stats are unchanged |
| Game.ClaimQuestTwice | frontend/App.tsx:135-144 | a second claim of the same quest pays nothing more |
| Game.QuestIndexSameIds | frontend/App.tsx:136 | two quest lists with the same ids find the same index |
| Game.ResetPool | frontend/App.tsx:155-165 | the pool holds exactly the templates with another id in the old quest's reward band (up to 20, 21 to 60, above 60) |
| Game.ResetQuestEffect | frontend/App.tsx:146-182 | with fewer than 50 gems or no such quest nothing changes; with 50 gems, the quest present and a non-empty pool, the result is exactly 50 gems fewer with the quest replaced by a fresh quest from the drawn template of another id in the same band, and nothing else changed |
| Game.ResetPoolNonEmpty | frontend/App.tsx:155-168 | for every daily-quest template the reset pool is non-empty, so the random pick always finds a template |
| Game.InitialHeartsConsistent | frontend/App.tsx:24-51 | the initial stats have full hearts and no refill timer |
| Game.CheckRegenEffect | frontend/App.tsx:381-401 | regeneration adds one heart per whole refill period, capped at 5; the timer is cleared exactly when hearts reach 5 and otherwise moves forward by the recovered hearts' time; nothing else changes |
| Game.CheckRegenIdempotent | frontend/App.tsx:386-403 | a second check at the same instant recovers nothing more (the minute interval cannot double-count) |
| Game.CheckRegenKeepsConsistent | frontend/App.tsx:381-401 | hearts in [0, 5] with a timer stored exactly while hearts are missing is preserved by regeneration |
| Game.UpdateHeartsEffect | frontend/App.tsx:436-451 | premium players are untouched; otherwise hearts take the new value, the timer starts only on a loss from a full 5, is cleared when hearts reach 5, and is kept otherwise |
| Game.UpdateHeartsKeepsConsistent | frontend/App.tsx:436-451 | the hearts/timer invariant is preserved by any new heart count in [0, 5] |
| Game.LoseOneThenRegen | frontend/App.tsx:381-451 | losing one heart from full and checking one refill period later restores all five hearts and clears the timer |
| Game.ShuffledTemplates | frontend/App.tsx:469 | a shuffle of the five quest templates has five entries, each a template |
| Game.DrawQuests | frontend/App.tsx:469-475 | three fresh quests, the first three templates of the shuffle |
| Game.BuyItem | frontend/App.tsx:453-486 | per item kind and id, the exact new stats: gem packs add their gem amount, the subscription sets premium with full hearts and no timer, each known consumable charges its cost with its effect, an unknown consumable changes nothing; the hearts/timer invariant is preserved |
| Game.CatalogueHasNoSkipOrReset | frontend/constants.ts:23-66 | the shop catalogue sells neither `skip_question` nor `quest_reset`, so those branches of `handleBuyItem` are unreachable from the shop |
| Game.AddCompletedEffect | frontend/App.tsx:571-574 | the completed list only grows, by at most one, gains the finished level when it counts (set, non-zero, not 99999), and stays duplicate-free |
| Game.Clamp | frontend/App.tsx:586 | the clamped score lies in [0, 100] and equals the input when it already does |
| Game.UpdateMastery | frontend/App.tsx:576-587 | the mastery loop computes the specification `ApplyMastery` with +10 for a perfect lesson and -10 per mistake otherwise |
| Game.ApplyMasteryFrame | frontend/App.tsx:576-587 | concepts outside the lesson keep their score, or their absence |
| Game.ApplyMasteryInRange | frontend/App.tsx:578-587 | every concept of the lesson ends with a score in [0, 100] |
| Game.ApplyMasteryOnce | frontend/App.tsx:578-587 | a concept listed once moves by exactly the delta from its old score (0 when absent), clamped |
| Game.NewlySound | frontend/App.tsx:589-595 | only achievements that are still locked and whose condition holds on the simulated stats are unlocked |
| Game.NewlyComplete | frontend/App.tsx:589-595 | every locked achievement whose condition holds is unlocked |
| Game.NewlyKeepsNoDup | frontend/App.tsx:589-605 | appending the newly unlocked ids keeps the unlocked list duplicate-free |
| Game.CollectAchievements | frontend/App.tsx:589-595 | the `forEach` over the achievements computes `Newly` over every achievement in order |
| Game.LessonQuestsEffect | frontend/App.tsx:547-550 | each quest moves once, by 1 for lessons, by the lesson XP for XP quests, by the streak for streak quests, and for perfect quests by 1 only after a lesson without mistakes |
| Game.CompleteLesson | frontend/App.tsx:546-608 | the lesson's concepts are the custom level's terms for id 88888 with a custom level, none for the smart workout or no level, and otherwise the terms of the level `getLevelData` finds (a curriculum level, a generated one above 900, or none); the exact new stats of a finished lesson: quests, XP, level recomputed, 8 gems plus 5 for a perfect bonus, completed levels, lesson and perfect counters, achievements and mastery, all other fields unchanged; both id lists stay duplicate-free and every lesson concept's mastery is in [0, 100] |
| Game.AchievementIdsDistinct | frontend/constants.ts:68-104 | the achievement ids are pairwise distinct |
| Game.Unit1Complete | frontend/App.tsx:640-643 | true exactly when every level 101 to 110 is completed |
| Constants.XpForNextLevel | frontend/constants.ts:13 | the threshold of a level, `100 * level^2`, is never negative |
| Constants.XpForNextLevelStep | frontend/constants.ts:13 | from level k to k + 1 the threshold grows by exactly `200k + 100` |
| Constants.XpForNextLevelMonotone | frontend/constants.ts:13 | thresholds grow with the level |
| Constants.LevelSearch | frontend/constants.ts:12 | the level found lies above `k` and is the one whose threshold band contains `xp` |
| Constants.CalculateLevel | frontend/constants.ts:12 | `floor(sqrt(xp / 100)) + 1` as its integer characterisation: the level l >= 1 with `100 (l-1)^2 <= xp < 100 l^2` |
| Constants.CalculateLevelZero | frontend/constants.ts:12 | a player with no XP is at level 1 |
| Constants.CalculateLevelBound | frontend/constants.ts:12-13 | the level is at most L exactly when `xp` is below the threshold of level L |
| Constants.CalculateLevelIsLargest | frontend/constants.ts:12-13 | `100 k^2 <= xp` exactly when k is below the level, so the level minus one is the largest such k |
| Constants.CalculateLevelMonotone | frontend/constants.ts:12 | more XP never gives a lower level |
| Constants.GeneratedLevelSpec | frontend/constants.ts:1105-1126 | a generated level has the requested id, no stars, three announced questions and at most three real ones, the source level's concepts, and every question is a source-level question renamed with the suffix `_gen_<levelId>` |
| Constants.GenerateRandomUnit | frontend/constants.ts:1095-1135 | the unit has the given id and title `Unidade <id>: <adjective> <topic>` and exactly three levels; level j has id `startLevelId + j`, title `<topic> - Parte <j+1>`, and is built from draw j |
| Constants.SearchStep | frontend/constants.ts:1140-1143 | when the earlier units hold no match, searching one more unit is searching that unit |
| Constants.SearchFound | frontend/constants.ts:1140-1143 | a match in the first units is the match in the whole curriculum |
| Constants.GeneratedLookup | frontend/constants.ts:1152-1153 | in a generated unit numbered from the id rounded down to ten, the level returned is the id itself when its last digit is 0 to 2, and otherwise the first level stands in |
| Constants.GetLevelById | frontend/constants.ts:1138-1157 | returns the first curriculum level with that id; for an unknown id above 900, a generated level with no stars and three questions, whose id is the requested one when its last digit is 0 to 2 and the id rounded down to ten otherwise, and whose concepts are those of the template drawn for that position; for any other unknown id, nothing |
| Types.FreshQuest | frontend/App.tsx:106-111 | a quest made from a template keeps its id, reward, target and kind, with no progress, not completed and not claimed |
| Types.FirstIndex | frontend/screens/Home.tsx:401 | `findIndex` by id: the first position holding the id, or -1 exactly when no position holds it |
| Types.FindLevelSpec | frontend/constants.ts:1141 | `find` returns a level of the list with that id, or nothing exactly when no level has it |
| Types.FindLevelAppend | frontend/constants.ts:1140-1143 | searching a concatenation searches the first part, then the second |
| Types.AllLevelsAppend | frontend/constants.ts:1140 | flattening the units distributes over concatenation |
| Text.StripShape | frontend/resolve_conflicts.py:14 | `strip()` leaves whitespace at neither end |
| Text.StripIdempotent | frontend/resolve_conflicts.py:14 | stripping twice is stripping once |
| Text.DigitsSpec | frontend/components/PaymentSheet.tsx:21 | `replace(/\D/g, '')` keeps only digits, so the result is no longer than the input |
| Lesson.FinalResult | frontend/screens/Lesson.tsx:226-241 | the result carries the three counters; total XP is base plus combo bonus plus perfect bonus; the perfect bonus is 20 exactly when there were no mistakes |
| Lesson.FinalResultBounds | frontend/screens/Lesson.tsx:226-241 | with the best combo at most the correct count, a lesson is worth between 10 and 12 XP per correct answer, plus at most the 20-XP perfect bonus |
| Lesson.PerfectBonusIffNoMistakes | frontend/screens/Lesson.tsx:229 | the perfect bonus (which earns the 5 extra gems) is paid exactly for lessons without mistakes, which are exactly those meeting the `perfectionist` achievement |
| Lesson.FirstCorrectOption | frontend/screens/Lesson.tsx:172 | `find(o => o.isCorrect)` returns a correct option of the list, or nothing exactly when no option is correct |
| Lesson.DragDropExactOrder | frontend/screens/Lesson.tsx:159-162 | picking the solution's tiles in order is always accepted |
| Lesson.OptionCorrectIff | frontend/screens/Lesson.tsx:165-174 | a choice is correct exactly when it is the id of the first correct option; without a correct option nothing is accepted |
| Lesson.FirstCorrectIndex | frontend/screens/Lesson.tsx:172 | the option `find` returns sits at an index before which no option is correct |
| Lesson.FillBlankIgnoresPadding | frontend/screens/Lesson.tsx:163-164 | spaces typed around the answer do not change the verdict |
| Lesson.FillBlankAcceptsAnswer | frontend/screens/Lesson.tsx:163-164 | the expected answer itself is accepted, and nothing is accepted when the question has no expected answer |
| Lesson.WithoutUnique | frontend/screens/Lesson.tsx:317-320 | filtering out a tile whose id is unique removes exactly that tile |
| Lesson.WithoutAbsent | frontend/screens/Lesson.tsx:317-320 | filtering out an id no tile has changes nothing |
| Lesson.FindPair | frontend/screens/Lesson.tsx:290 | `find` by id returns a pair item with that id from the list, or nothing exactly when none has it |
| Lesson.SegmentsOf | frontend/screens/Lesson.tsx:116-120 | the tiles' texts are the solution segments followed by the distractors, and no two tiles share an id |
| Lesson.SegmentIdsDistinct | frontend/screens/Lesson.tsx:119 | ids numbered `seg-0`, `seg-1`, ... by position are pairwise distinct |
| Lesson.WithoutIds | frontend/screens/Lesson.tsx:317-320 | filtering out an id leaves exactly the list's other ids, and keeps a duplicate-free id list duplicate-free |
| Lesson.ShuffleKeepsIds | frontend/screens/Lesson.tsx:121 | a reordering of a tile list with distinct ids has distinct ids |
| Lesson.MoveTile | frontend/screens/Lesson.tsx:314-323 | moving a tile from one list to the end of the other keeps all ids distinct across both lists and keeps the tiles the two lists hold together |
| Text.DecimalValueOfNatToString | frontend/screens/Lesson.tsx:119 | reading back the decimal digits of a number gives the number, so different positions print as different ids |
| Text.IntValueOfIntToString | frontend/screens/Shop.tsx:287 | reading back a printed integer, minus sign included, gives the integer, so different gem amounts print differently |
| Lesson.LessonSession.constructor | frontend/screens/Lesson.tsx:24-77 | a fresh session at question 0 with no answer, feedback, combo, mistakes or pairs, no theory card open and no concept seen, and the parent's hearts, premium flag and skip tokens |
| Lesson.LessonSession.ShowQuestion | frontend/screens/Lesson.tsx:86-129 | showing a question clears the answer, feedback and typed input; a theory question, or a question whose theory concept is unseen, opens the theory card and leaves every board as it was; otherwise a pair match gets the new pair shuffle with no matches, selection or wrong pair, a drag and drop gets the new tile shuffle with nothing selected and its tiles distinct and complete, and everything else is kept |
| Lesson.LessonSession.TheoryContinue | frontend/screens/Lesson.tsx:504-513 | the card's concept is marked seen and the card closes, so the card of that concept does not open again unless the question is a theory question; the caller continues exactly for a theory question |
| Lesson.LessonSession.IncrementCombo | frontend/screens/Lesson.tsx:142-147 | the combo grows by one, the best combo follows it, one more correct answer; the best combo stays between the combo and the correct count |
| Lesson.LessonSession.ResetCombo | frontend/screens/Lesson.tsx:149-152 | the combo drops to 0 and one more mistake is counted |
| Lesson.LessonSession.LoseHeart | frontend/screens/Lesson.tsx:185-187 | one heart less without premium, none with it |
| Lesson.LessonSession.Check | frontend/screens/Lesson.tsx:154-191 | a screen already out of hearts without premium does nothing and reports the quit; the quit is reported exactly when the session ends out of hearts, which for a live screen means a wrong answer took the last heart without premium, as the hearts effect at lines 79-84 then calls `onQuit`; otherwise ignored for a pair match; otherwise the verdict is the per-type answer check, and a right answer records correct feedback and a combo step while a wrong one records wrong feedback, breaks the combo, adds a mistake and costs a heart without premium |
| Lesson.LessonSession.ClearAnswer | frontend/screens/Lesson.tsx:219-221 | feedback, submission and selected option are cleared |
| Lesson.LessonSession.Advance | frontend/screens/Lesson.tsx:223-244 | the next question when one remains, otherwise the lesson finishes with the given result and the index stays valid |
| Lesson.LessonSession.Continue | frontend/screens/Lesson.tsx:193-245 | out of hearts without premium: quit with nothing changed; after a wrong answer: the same question again with the answer cleared and, for a drag and drop, the tiles reshuffled; otherwise the next question, or the final result from the counters on the last one; a retried drag and drop holds all its tiles, each id once |
| Lesson.LessonSession.Skip | frontend/screens/Lesson.tsx:247-278 | a screen out of hearts without premium has quit and nothing changes; otherwise, without tokens nothing happens; otherwise one token is spent, the question counts as a correct answer with a combo step, and the lesson advances or finishes with the correct count plus one and the best combo from before the skip |
| Lesson.LessonSession.PairClick | frontend/screens/Lesson.tsx:281-312 | a screen already out of hearts without premium does nothing and reports the quit; the quit is reported exactly when the session ends out of hearts, which for a live screen only a wrong pair taking the last heart causes; otherwise a click on a matched item or during a wrong-pair pause does nothing; a click on the selected item deselects it; with no selection it selects; a partner completes a match (and the last match earns correct feedback and a combo step); a non-partner marks the wrong pair, breaks the combo and costs a heart without premium |
| Lesson.LessonSession.ClearWrongPair | frontend/screens/Lesson.tsx:307-310 | after the pause the wrong pair and the selection are cleared |
| Lesson.LessonSession.SegmentClick | frontend/screens/Lesson.tsx:314-323 | after submission nothing moves; otherwise the tile is filtered out of one list and appended to the other, and when its id is unique the two lists together hold the same tiles as before; a drag-and-drop board that holds its question's tiles, each id once, still does after a click on one of its tiles |
| Home.NextIndex | frontend/screens/Home.tsx:53-55 | the index of the first visible level not yet completed: every level before it is completed, and it is completed only when it is past the end |
| Home.NextIndexAtMost | frontend/screens/Home.tsx:54 | no uncompleted level comes before that index |
| Home.CurrentActiveIdAllDone | frontend/screens/Home.tsx:54-55 | the active id is -1 when every visible level is completed |
| Home.CurrentActiveIdIsFirstOpen | frontend/screens/Home.tsx:54-55 | the active id is that of the first uncompleted level in path order |
| Home.IndexOf | frontend/screens/Home.tsx:401 | `findIndex` by id: the first index with that id, or -1 exactly when none has it |
| Home.LevelFlagsSpec | frontend/screens/Home.tsx:401-407 | with distinct ids, the first level is never locked, another level is locked exactly when its predecessor is not completed, and a level is current exactly when neither locked nor completed |
| Home.NextLevelIsCurrent | frontend/screens/Home.tsx:53-55 | the level named by `currentActiveId` is drawn as current |
| Home.LevelAfterNextLocked | frontend/screens/Home.tsx:401-407 | with distinct ids, the level right after the next one is locked |
| Home.RefillCountdownSpec | frontend/screens/Home.tsx:154-165 | "00:00" when the time is up; otherwise minutes, a colon and seconds padded to two digits, the seconds below 60 and minutes and seconds together the whole seconds left |
| Home.QuestCountdownSpec | frontend/screens/Home.tsx:180-186 | hours, minutes and seconds shown add up to the whole seconds left, minutes and seconds are below 60 and padded to two digits |
| Home.SecondsSplit | frontend/screens/Home.tsx:182-184 | whole seconds split into hours, minutes below 60 and seconds |
| Home.DivModOf | frontend/screens/Home.tsx:182-184 | any quotient and remainder in range are the division's quotient and remainder |
| Home.HoursField | frontend/screens/Home.tsx:182 | the hour field counts whole hours of the whole seconds |
| Home.MinutesField | frontend/screens/Home.tsx:183 | the minute field is the whole minutes left over after the hours |
| Home.SecondsField | frontend/screens/Home.tsx:184 | the second field is the whole seconds left over after the minutes |
| Home.ResetGateAgreesWithHandler | frontend/screens/Home.tsx:313-317 | a reset click the button swallows for lack of 50 gems would not have changed the stats in `handleResetQuest` either |
| Home.MistakesShowSmartWorkout | frontend/screens/Home.tsx:58 | a concept practised once in a lesson with mistakes, from a score below 70, is weak afterwards, so the Smart Workout button shows |
| Home.UnitFeed.constructor | frontend/screens/Home.tsx:44-45 | the feed starts with the curriculum and no load pending |
| Home.UnitFeed.LoadMore | frontend/screens/Home.tsx:61-63 | ignored while a load is pending, otherwise starts one; the units are unchanged |
| Home.UnitFeed.FinishLoading | frontend/screens/Home.tsx:65-75 | one unit is appended, numbered after the last one and titled from the drawn adjective and topic, with three generated levels numbered from `(id) * 100 + 1` and titled by part; the earlier units are kept and loading ends |
| Review.KeepAppend | frontend/screens/Review.tsx:25-36 | walking `a + b` is walking `a`, then `b` from where `a` left the list |
| Review.KeepShape | frontend/screens/Review.tsx:28-33 | the walk only appends to the list, lists exactly the terms met, takes concepts only from its inputs, and keeps terms distinct |
| Review.KeepFirst | frontend/screens/Review.tsx:28-33 | the first concept met with a term not yet listed is kept |
| Review.KeepIsSubsequence | frontend/screens/Review.tsx:28-33 | from an empty start, the kept concepts are an order-preserving selection of the input |
| Review.UnlockedSpec | frontend/screens/Review.tsx:21-38 | the unlocked concepts are, in curriculum order, the concepts of completed levels with each term once, the first concept met for each term being the one kept |
| Review.CandidatesContain | frontend/screens/Review.tsx:27 | every concept of a completed level is a candidate |
| Review.CandidatesAppend | frontend/screens/Review.tsx:25-27 | the candidates of a concatenation of levels are the concatenation of the candidates |
| Review.AbsorbConcepts | frontend/screens/Review.tsx:28-33 | the innermost loop appends exactly the concepts whose term is unseen, and `seen` stays the set of listed terms |
| Review.AbsorbLevels | frontend/screens/Review.tsx:26-35 | the middle loop absorbs the concepts of exactly the completed levels of one unit |
| Review.UnlockedConcepts | frontend/screens/Review.tsx:21-38 | the nested loops with their `seen` set compute the unlocked concepts |
| Review.FilterConceptsSpec | frontend/screens/Review.tsx:40-45 | the filtered list keeps, in order, exactly the concepts matching the search, ignoring case, in term or definition, and the type chip; an empty search with every type keeps all |
| Review.MasteryTierSpec | frontend/screens/Review.tsx:49-57 | more mastery never lowers the tier, and a concept never practised is a novice's |
| Review.GroupCount | frontend/screens/Review.tsx:104-108 | a group holds each concept of its type as often as the list does, and nothing else |
| Review.GroupsPartition | frontend/screens/Review.tsx:104-108 | the three groups together hold every filtered concept exactly as often as the list does |
| Review.GroupMembers | frontend/screens/Review.tsx:104-108 | a group holds only concepts of its type, taken from the list |
| CodeDebug.CollapseHead | frontend/screens/CodeDebug.tsx:67 | collapsing empties only the empty string and starts with whitespace exactly when the input does |
| CodeDebug.CollapseNonSpace | frontend/screens/CodeDebug.tsx:67 | collapsing keeps every non-whitespace character, in order |
| CodeDebug.CollapseCollapsed | frontend/screens/CodeDebug.tsx:67 | after collapsing, the only whitespace is single plain spaces |
| CodeDebug.CollapseFixed | frontend/screens/CodeDebug.tsx:67 | an already collapsed string is left as it is |
| CodeDebug.NormalizeShape | frontend/screens/CodeDebug.tsx:67-68 | the comparison key has the input's non-whitespace characters, runs reduced to one space, and no space at either end |
| CodeDebug.NormalizeIdempotent | frontend/screens/CodeDebug.tsx:67-68 | normalising twice is normalising once |
| CodeDebug.NormalizeLeadingSpace | frontend/screens/CodeDebug.tsx:67-70 | leading whitespace never makes a file fail |
| CodeDebug.CollapseRunLength | frontend/screens/CodeDebug.tsx:67 | dropping one character of a whitespace run leaves the collapsed text unchanged |
| CodeDebug.NormalizeRunLength | frontend/screens/CodeDebug.tsx:67-70 | files that differ only in the length of a whitespace run compare equal |
| CodeDebug.FailuresSnoc | frontend/screens/CodeDebug.tsx:64-74 | one more file adds its error entry, if it fails, at the end |
| CodeDebug.FailuresCount | frontend/screens/CodeDebug.tsx:64-74 | there is one error entry per failing file |
| CodeDebug.FailuresEmptyIff | frontend/screens/CodeDebug.tsx:64-76 | there are no error entries exactly when every file passes |
| CodeDebug.InitialContentsSpec | frontend/screens/CodeDebug.tsx:42-45 | the starting contents hold exactly the challenge's file ids and, with distinct ids, each file's initial code |
| CodeDebug.CollectFailures | frontend/screens/CodeDebug.tsx:61-74 | the loop's error list is `Failures`, and `allCorrect` holds exactly when every file passes, exactly when the list is empty |
| CodeDebug.DebugScreen.constructor | frontend/screens/CodeDebug.tsx:14-21 | no challenge open, no file, no contents, hints hidden, no result and no message |
| CodeDebug.DebugScreen.StartChallenge | frontend/screens/CodeDebug.tsx:39-50 | opens the challenge on its first file with the initial code of every file, clearing the result, message and hints |
| CodeDebug.DebugScreen.CodeChange | frontend/screens/CodeDebug.tsx:52-57 | only the edited file's entry changes, to the new code |
| CodeDebug.DebugScreen.RunCode | frontend/screens/CodeDebug.tsx:59-87 | without a challenge nothing happens, the result and message included; a clean run reports success, pays the challenge's XP and closes it; otherwise the message lists each failing file joined by ", " followed by ". Continue debugando!" and nothing is paid; the contents are untouched |
| Payment.DigitsAppend | frontend/components/PaymentSheet.tsx:21 | stripping non-digits distributes over concatenation |
| Payment.DigitsOfDigits | frontend/components/PaymentSheet.tsx:21 | a digit string has no non-digit to strip |
| Payment.GroupSpaced | frontend/components/PaymentSheet.tsx:21 | `replace(/(\d{4})/g, '$1 ')` is the spaced grouping, with one trailing space exactly when the digit count is a non-zero multiple of four |
| Payment.SpacedLength | frontend/components/PaymentSheet.tsx:21 | a grouped number of n > 0 digits has `n + (n - 1) / 4` characters |
| Payment.SpacedLayout | frontend/components/PaymentSheet.tsx:21 | in a grouped number a space sits exactly at every fifth position, and elsewhere the digit that belongs there |
| Payment.SpacedDigits | frontend/components/PaymentSheet.tsx:21 | dropping the spaces of a grouped number gives back its digits |
| Payment.SpacedShape | frontend/components/PaymentSheet.tsx:21 | length, layout and digits of a grouped number together |
| Payment.StripGroup | frontend/components/PaymentSheet.tsx:21 | `trim()` removes only the space left after a last full group |
| Payment.CutAtSixteen | frontend/components/PaymentSheet.tsx:21 | `slice(0, 19)` of a longer grouped number is the grouping of its first 16 digits |
| Payment.FormatCardIsSpaced | frontend/components/PaymentSheet.tsx:21 | `formatCard` is the grouping of the input's first 16 digits |
| Payment.FormatCardSpec | frontend/components/PaymentSheet.tsx:21 | the formatted card has at most 19 characters, spaces exactly at every fifth position and digits elsewhere, holds the input's first 16 digits at most, and is 18 characters or longer exactly when the input has 15 digits or more |
| Payment.FormatCardIdempotent | frontend/components/PaymentSheet.tsx:21 | reformatting a formatted card number changes nothing |
| Payment.FormatExpirySpec | frontend/components/PaymentSheet.tsx:22 | the formatted date is the digits alone while there are at most two, otherwise two digits, a slash and up to two more; at most 5 characters, and exactly 5 when the input has 4 digits or more |
| Payment.FormatExpiryIdempotent | frontend/components/PaymentSheet.tsx:22 | reformatting a formatted date changes nothing |
| Payment.Cvc | frontend/components/PaymentSheet.tsx:89 | the CVC is a prefix of the input of at most 3 characters, exactly 3 when the input has at least 3 |
| Payment.IsValidOnInputs | frontend/components/PaymentSheet.tsx:24 | on formatted fields the pay button is enabled exactly when the card input has 15 digits or more, the date 4 or more and the CVC input 3 characters or more |
| Payment.PaymentSheet.constructor | frontend/components/PaymentSheet.tsx:15-18 | the sheet opens at the input step with empty fields |
| Payment.PaymentSheet.TypeCard | frontend/components/PaymentSheet.tsx:67 | in the input step the card field takes the formatted input; no other field changes |
| Payment.PaymentSheet.TypeExpiry | frontend/components/PaymentSheet.tsx:79 | in the input step the expiry field takes the formatted input; no other field changes |
| Payment.PaymentSheet.TypeCvc | frontend/components/PaymentSheet.tsx:89 | in the input step the CVC field takes the first three characters; no other field changes |
| Payment.PaymentSheet.Submit | frontend/components/PaymentSheet.tsx:26-27 | the pay button, enabled only for valid fields, moves the sheet from input to processing |
| Payment.PaymentSheet.Approve | frontend/components/PaymentSheet.tsx:28-29 | after the first delay processing turns into success |
| Payment.PaymentSheet.Confirm | frontend/components/PaymentSheet.tsx:30-32 | `onConfirm` fires exactly at the success step, and then the fields were valid |
| Resize.Clamp | frontend/components/ResizableContainer.tsx:48 | `Math.max(lo, Math.min(hi, v))` is at least `lo`, at most `hi` when the bounds are ordered, and `v` itself when it is in range |
| Resize.NewSizeSpec | frontend/components/ResizableContainer.tsx:41-58 | a dimension whose letters are in the handle stays within its bounds; `w` and `n` win over `e` and `s`; each moves its edge with the mouse offset; a dimension without its letters keeps its start value |
| Resize.DragBackRestores | frontend/components/ResizableContainer.tsx:41-58 | a mouse back at its mousedown position restores a size that was within the bounds, for any handle |
| Resize.CursorMatchesAxes | frontend/components/ResizableContainer.tsx:83-95 | the cursor of each of the eight handles shows exactly the axes it resizes, corners along their own diagonal; the empty direction of an idle frame gives `default` |
| Resize.Frame.constructor | frontend/components/ResizableContainer.tsx:13-27 | the frame starts at its default size, idle, with zero start position and size |
| Resize.Frame.MouseDown | frontend/components/ResizableContainer.tsx:29-35 | a drag starts on the handle and records the mouse and the current size; the size is unchanged |
| Resize.Frame.MouseMove | frontend/components/ResizableContainer.tsx:38-61 | during a drag the size becomes `NewSize` of the recorded start size and the mouse's total offset; otherwise nothing changes; the drag's record is kept |
| Resize.Frame.MouseUp | frontend/components/ResizableContainer.tsx:63-66 | the drag ends and the handle is cleared; the size and the recorded drag start are kept |
| Resize.Frame.PageCursor | frontend/components/ResizableContainer.tsx:68-79 | an idle frame leaves the page's default cursor |
| Profile.CareerRank | frontend/screens/Profile.tsx:51-56 | the career rank is one of the four titles |
| Profile.CareerLevelSpec | frontend/screens/Profile.tsx:51-56 | the rank names the title; below the top title, `next` lies above the current XP and already carries the following title |
| Profile.CareerMonotone | frontend/screens/Profile.tsx:51-56 | more XP never gives a lower title or a lower `next` |
| Profile.RemainingPositiveBelowSenior | frontend/screens/Profile.tsx:147 | below the senior title, the remaining XP shown is positive |
| Profile.RemainingNegativeForSenior | frontend/screens/Profile.tsx:147 | as written, a senior with 60000 XP is told that -10000 XP remain |
| Profile.Remaining | frontend/screens/Profile.tsx:147 | the corrected remaining XP is never negative, equals the written value wherever that one is positive, and is 0 from 50000 XP on |
| Profile.NameEditor.constructor | frontend/screens/Profile.tsx:25 | the editor starts closed with the current username |
| Profile.NameEditor.SaveName | frontend/screens/Profile.tsx:27-32 | a name that is not blank is saved trimmed (non-empty, no edge whitespace) and the editor closes; a blank one changes nothing |
| Leaderboard.InsertSorted | frontend/screens/Leaderboard.tsx:20-23 | inserting into a list sorted by descending XP keeps it sorted |
| Leaderboard.InsertPermutes | frontend/screens/Leaderboard.tsx:20-23 | inserting adds the entry and keeps every other one |
| Leaderboard.SortByXpSpec | frontend/screens/Leaderboard.tsx:23 | the sort orders by descending XP and is a permutation of its input |
| Leaderboard.InsertLast | frontend/screens/Leaderboard.tsx:23 | an entry below every other goes last |
| Leaderboard.RivalsStrictlyDescending | frontend/screens/Leaderboard.tsx:12-18 | the rivals are declared with strictly descending XP for every player XP |
| Leaderboard.RivalsSorted | frontend/screens/Leaderboard.tsx:12-23 | so sorting leaves the rivals in their declared order |
| Leaderboard.AheadSplitsRivals | frontend/screens/Leaderboard.tsx:12-18 | `Ahead` rivals, 2 to 5, have at least the player's XP and come first; the rest have less |
| Leaderboard.InsertAt | frontend/screens/Leaderboard.tsx:23 | with a stable sort, the entry goes right after the entries with at least its XP |
| Leaderboard.BoardLayout | frontend/screens/Leaderboard.tsx:20-23 | the board is the rivals in order with the player inserted right after those with at least the player's XP |
| Leaderboard.BoardSorted | frontend/screens/Leaderboard.tsx:20-23 | the board is sorted by descending XP and holds exactly the five rivals and the player |
| Leaderboard.BoardSpec | frontend/screens/Leaderboard.tsx:20-40 | six entries, only the player flagged; the player's rank `index + 1` is 3 to 6, and 3 whenever the player has more than 50 XP |
| Shop.SelectSpec | frontend/screens/Shop.tsx:56-58 | `filter` keeps, in order, exactly the items that pass |
| Shop.FindFirstSpec | frontend/screens/Shop.tsx:59 | `find` returns the first item that passes, or nothing exactly when none does |
| Shop.Categories | frontend/screens/Shop.tsx:55-59 | on the catalogue: no power-ups, the heart refill and streak freeze as utilities, the two gem packs, and the subscription found |
| Shop.ClickOutcomeSpec | frontend/screens/Shop.tsx:20-35 | a click buys on the spot exactly an affordable consumable, opens the payment sheet exactly for real-money items still useful to the player, and alerts exactly for an unaffordable consumable |
| Shop.ClickPurchaseAffordable | frontend/screens/Shop.tsx:28-32 | a purchase on click never takes a non-negative gem balance below zero, and costs something |
| Shop.SuccessMessage | frontend/screens/Shop.tsx:286-289 | a gem pack announces the gems it gives, or `undefined` without an amount; any other item is announced by its name as acquired |
| Shop.PackMessageNamesGems | frontend/screens/Shop.tsx:286-288 | two packs announced by the same message give the same number of gems |
| Shop.PackMessageNotItemMessage | frontend/screens/Shop.tsx:286-289 | a pack's message never coincides with a non-pack item's message |
| Shop.CataloguePacksAnnounceGems | frontend/constants.ts:48-65 | every gem pack of the catalogue has a positive amount, so its message names the gems and never `undefined` |
| Shop.ShopScreen.constructor | frontend/screens/Shop.tsx:16-18 | no success overlay, no payment sheet, no payment in progress, nothing scheduled |
| Shop.ShopScreen.ClickItem | frontend/screens/Shop.tsx:20-35 | the outcome is `ClickOutcomeOf`; a purchase shows the item in the success overlay, a real-money item opens the sheet; nothing else changes, and only real-money items reach the sheet |
| Shop.ShopScreen.ConfirmPayment | frontend/screens/Shop.tsx:37-48 | nothing without an item in the sheet; otherwise the payment is in progress and that item's purchase is scheduled |
| Shop.ShopScreen.PaymentTimer | frontend/screens/Shop.tsx:42-47 | the oldest scheduled purchase, a real-money item, is bought and shown in the success overlay; the sheet closes and processing ends |
| Shop.ShopScreen.ClosePayment | frontend/screens/Shop.tsx:261 | the sheet closes; a scheduled purchase stays scheduled |
| Shop.ShopScreen.SuccessTimer | frontend/screens/Shop.tsx:50-53 | the success overlay goes; nothing else changes |

## Left out

- File reading and writing and the console messages of both scripts: the scripts are modelled on the file's lines, and `Excision` on its marker indices, so the outcome is a value rather than a written file.
- Whitespace trimming and lower-casing are modelled for ASCII only. The whitespace set is the six ASCII characters (space, tab, line feed, carriage return, vertical tab, form feed) that `str.strip`, `String.trim` and `\s` all remove. The separators `\x1c` to `\x1f`, which Python's `str.strip` also removes, are left out, so `Conflicts` can differ on a marker line that begins or ends with one of them. The Unicode whitespace set and locale case rules are not modelled.
- Payment.Cvc: counts Unicode characters where JavaScript's `slice(0, 3)` counts UTF-16 code units, so a CVC holding a character outside the Basic Multilingual Plane is cut differently ("😀ab" keeps "😀a" in the source and all of it here).
- Payment.PaymentSheet.TypeCvc: stores `Payment.Cvc` of the input, so it inherits the same difference for characters outside the Basic Multilingual Plane.
- Payment.IsValidOnInputs: measures the CVC in Unicode characters where `cvc.length >= 3` counts UTF-16 code units, so a CVC such as "😀a" enables the pay button in the source and not here. The card number and expiry are unaffected, because once formatted they hold only digits, spaces and `/`.
- The browser clock and `Date`: the current time and every time difference are parameters (`now`, `diff`), and the countdowns work on integer milliseconds.
- Random shuffles and draws (`Math.random`, `sort(() => Math.random() - 0.5)`): the chosen order or index is a parameter, and its contracts hold for every choice.
- React timers run as separate methods that the environment calls after the delay: `Shop.ShopScreen.PaymentTimer`, `Shop.ShopScreen.SuccessTimer`, `Payment.PaymentSheet.Approve`, `Payment.PaymentSheet.Confirm`. The 500 ms reward after the last pair of a pair match and the 2 s reward after a passed code run are applied in the same step.
- Floating point: real-money prices are kept in hundredths. The countdowns use integer division where the source uses `Math.floor` on doubles, which agree on non-negative integers.
- Game.ResetQuest: with an empty reset pool it returns the stats unchanged where the source would index an empty array. `Game.ResetPoolNonEmpty` shows that this cannot happen with the shipped templates.
- CodeDebug.DebugScreen.StartChallenge: requires a non-empty file list, because `files[0].id` throws on an empty one.
- Lesson.LessonSession.constructor: requires at least one question, because the screen reads the current question as soon as it mounts.
- Lesson.LessonSession.ShowQuestion: a question without `pairs` or `segments` is treated as having an empty list, where the source skips the set-up; the screen shows the same empty board either way.
- Audio effects and speech synthesis are not modelled: they change no score, answer or board state.
- Lesson.LessonSession.TheoryContinue: closing the card of a question that is not a theory question does not set up its pair or tile board, as in the source, whose set-up effect runs only when the question changes.
- The hearts effect of the lesson screen (`Lesson.tsx` lines 79-84) runs whenever the hearts change and calls `onQuit` once they are at 0 or below without premium. `Lesson.LessonSession.Check` and `Lesson.LessonSession.PairClick` report that quit when they take the last heart, and they, `Lesson.LessonSession.Skip` and `Lesson.LessonSession.Continue` do nothing but report it in that state. The other handlers (tile and option clicks, the theory card) are not guarded: the caller stops sending events once a quit is reported, as the unmounted screen does. The check on mount is the same condition on the initial hearts.
- Payment.PaymentSheet.Approve: guards on the processing step. The source's timer fires unconditionally, but it is only ever started from that step.
- Resize.Frame.PageCursor: returns `default` for an idle frame where the source resets the page cursor to the empty string, which browsers show as the default cursor.
- Stale closures: `Lesson.LessonSession.Skip` reports the `maxCombo` it read before the skip, as the source's closure does.
- The props `setHearts` and `onUseSkip` of the lesson screen are mirrored as fields of the session; the parent's copy is not modelled.
- The daily quest effect of the app shell (`App.tsx` lines 100-120) depends on the date: `Game.DrawQuests` models the draw and not the date test.
- The initial stats leave out `selectedModule` and `settings`, which no modelled operation reads.
- Authentication, saving to the back end, the save after a premium purchase, and the Stripe client: network I/O, not part of this model.
- Game.CompleteLesson: the custom level (id 88888) is a parameter, because the component that builds it is not part of this model.
- Lesson.LessonSession.SegmentClick: the board invariant is stated for a click on a tile that is in the list it is clicked in, which is the only tile the screen renders there.
- Leaderboard.SortByXp: models the stable `Array.prototype.sort` as a stable insertion sort. Only its result is compared with the source, not its steps.
- Every other screen, component, service and style sheet of the repository is not part of this model.

## Findings

| source | as written | input that shows it | evidently intended | confidence | as-written member | corrected member |
|---|---|---|---|---|---|---|
| frontend/screens/Profile.tsx:147 | the profile shows `career.next - stats.totalXP` XP to the next title, with `next` fixed at 50000 for the top title | a senior player with `totalXP` 60000 is shown -10000 XP remaining | the remaining XP is never negative, and is 0 from 50000 XP (the top title's `next`) on | not executed | Profile.RemainingNegativeForSenior | Profile.Remaining |
