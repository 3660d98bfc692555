# Monochromacy interactive pages, modelled in Dafny

Monochromacy is a satirical corporate marketing site. It has three small browser
experiences, and this project models their logic.

- **AgileForce** is a reflex obstacle course. Choosing a difficulty draws a
  shuffled course that holds one "TAKE IT OFFLINE" (wait) obstacle, one
  "LEVERAGE SYNERGIES" (press three times) obstacle and execute fillers. The
  page counts down 3-2-1, then runs a 16 ms response clock per obstacle. Each
  obstacle ends in a hit or a miss, by a press of EXECUTE or by the clock
  running out. A `processingRef` latch keeps a second result from being
  recorded while the 350 ms feedback is shown. A grade is computed from the
  hit rate.
- **Office Odyssey** is a narrated text adventure. The narrator's reply may
  carry an `[OUTCOME]{…}[/OUTCOME]` block that ends the game. The block is cut
  from the shown text, and the raw reply is shown when nothing else remains.
  The page also shows a mm:ss clock and a room name that cycles through twelve
  rooms as actions are taken.
- **NPC Detect** is a mock interview of up to seven questions. The
  interviewer's reply may carry a `[VERDICT]{…}[/VERDICT]` block with a score.
  The score picks a colour class, and the progress label is capped at seven.

Modules:

- `Options`: the option type.
- `JsText`: the JavaScript string behaviour the pages rely on.
  - `String.prototype.trim` over the ECMAScript white-space and line-terminator set.
  - `String(n)` for naturals.
  - `padStart`.
  - Reading a decimal back.
- `TaggedBlocks`: the `/\[TAG\]([\s\S]*?)\[\/TAG\]/` search.
  - The search is the leftmost opening tag followed by the nearest closing tag.
  - `match[1]` is passed to `JSON.parse`, modelled as a `decode` parameter.
  - The global replace removes every block.
  - Then comes `trim`, and the `clean || reply` fallback.
- `ChatTranscript`: the message and reply types shared by the two chat pages.
  It also holds the transcript facts they keep: user turns are trimmed and
  non-empty, and assistant turns are counted.
- `AgileForceCourse`: the obstacle pool and `generateObstacles`. The fill loop
  and the in-place Fisher–Yates shuffle on an array are proved against a
  function `Course` of the random draws.
- `AgileForceGrade`: `computeGrade`.
- `AgileForceEngine`: the page's state as a value. It has one function per
  event: buttons, the key handler, the four timers, and the expiry effect.
  The invariant `WellFormed` is kept by every event. Lemmas cover the latch
  and the press/expiry race.
- `AgileForcePage`: the class `Engine`, whose methods update the same fields
  in place. Each event method requires the invariant and the screen its button
  is shown on, keeps the invariant, and is proved to produce exactly the state
  the corresponding `AgileForceEngine` function gives.
- `OfficeOdysseyPage` and `NpcDetectPage`: the pure helpers of each page, and
  classes `Game` and `Interview` whose methods are the page's handlers.
  - Each `await callAPI(…)` splits a handler into two methods: the part that
    runs before the call, and the continuation that gets the reply.
  - The reply first goes through a pure reading function (`ReadActionReply`,
    `ReadAnswer`, …). That function decides what will be shown and whether a
    block was found.

Details of the code that the model keeps as written:

- **Last obstacle:** after the last obstacle, `currentIdx` is not
  incremented. It stays at the last index on the results screen
  (`WellFormed`, `FeedbackDone`).
- **Restart and timers:** restarting AgileForce clears only the obstacle
  interval and the latch. On the results screen, the only place the restart
  button exists, no other AgileForce timer is pending. Office Odyssey's
  1200 ms ending timeout and NPC Detect's verdict timeout are not cancelled by
  `restart()` at all: `Game.Restart` and `Interview.Restart` leave
  `endingDue` / `verdictDue` as they were.
- **Score bands:** the verdict score is a number, so the middle band of
  `getColorClass` is `30 < score < 61` over real scores.

## Model

| member | source | states |
|---|---|---|
| AgileForceCourse.Pick | src/app/agileforce/page.tsx:62 | `Math.floor(r * n)` for a draw in [0, 1) is an index below `n` |
| AgileForceCourse.Filter | src/app/agileforce/page.tsx:53-54 | the filtered pool holds only pool members, all of the requested kind (execute or not) |
| AgileForceCourse.FilterCounts | src/app/agileforce/page.tsx:53-57 | the two filters split the pool: as many executes as the pool has, and the specials are exactly its waits and multis |
| AgileForceCourse.ObstaclePoolValid | src/app/agileforce/page.tsx:26-44 | the pool has executes, exactly one wait and exactly one multi |
| AgileForceCourse.Fill | src/app/agileforce/page.tsx:60-63 | the fill has exactly the requested length and holds only execute obstacles |
| AgileForceCourse.CourseLength | src/app/agileforce/page.tsx:57-58 | a course has `count` obstacles, and never fewer than the two required specials |
| AgileForceCourse.SwapPermutes | src/app/agileforce/page.tsx:69 | the destructuring swap permutes the course |
| AgileForceCourse.ShuffledPermutes | src/app/agileforce/page.tsx:66-70 | the Fisher–Yates pass keeps the length and is a permutation of its input |
| AgileForceCourse.Shuffle | src/app/agileforce/page.tsx:66-70 | the in-place loop over the array leaves exactly the shuffled sequence the draws determine |
| AgileForceCourse.CountKindPermutation | src/app/agileforce/page.tsx:66-70 | a permutation keeps the number of obstacles of each type |
| AgileForceCourse.UnshuffledShape | src/app/agileforce/page.tsx:52-65 | before shuffling: the course length, one wait, one multi, the rest executes, all from the pool |
| AgileForceCourse.CourseShape | src/app/agileforce/page.tsx:52-72 | whatever the draws, a course has `count` (at least 2) obstacles from the pool: exactly one wait, one multi, and executes otherwise; it is a permutation of the unshuffled course |
| AgileForceCourse.GenerateObstacles | src/app/agileforce/page.tsx:52-72 | the fill loop and the in-place shuffle return exactly `Course(pool, count, random)` |
| AgileForceGrade.Hits | src/app/agileforce/page.tsx:75 | the hit count never exceeds the number of results |
| AgileForceGrade.RateAtLeast | src/app/agileforce/page.tsx:76-82 | comparing the rate `hits/total` to a threshold `num/den` is the same as the integer comparison `hits*den >= num*total` |
| AgileForceGrade.ComputeGrade | src/app/agileforce/page.tsx:74-84 | audited: COMPLIANT iff rate ≥ 0.6, NON-COMPLIANT otherwise; other difficulties: PASSED iff rate ≥ 0.8, FAILED iff 0.6 ≤ rate < 0.8, FAILED (NOTED) iff rate < 0.6; no results (NaN rate) gives the lowest grade |
| AgileForceGrade.HitsRaise | src/app/agileforce/page.tsx:75 | turning one result into a hit adds one hit if it was a miss, none otherwise |
| AgileForceGrade.GradeMonotone | src/app/agileforce/page.tsx:74-84 | turning any result into a hit never lowers the grade |
| AgileForceGrade.CleanRunGrades | src/app/agileforce/page.tsx:74-84 | all hits earn the top grade of the difficulty, all misses the bottom one |
| AgileForceEngine.DifficultiesWellFormed | src/app/agileforce/page.tsx:46-50 | every difficulty has a positive window and asks for at least two obstacles |
| AgileForceEngine.Classify | src/app/agileforce/page.tsx:160-163 | a result is a hit exactly when a wait obstacle expires or another obstacle is pressed |
| AgileForceEngine.ClassifyCausesDisagree | src/app/agileforce/page.tsx:160-163 | for every obstacle type, pressing and expiring give opposite results |
| AgileForceEngine.NextTime | src/app/agileforce/page.tsx:143-149 | a tick never goes below zero or above the previous time, and reaches zero exactly when at most 16 ms remained |
| AgileForceEngine.TicksCountDown | src/app/agileforce/page.tsx:142-151 | after n ticks a window of w ms shows `w - 16n`, or 0 once that is used up |
| AgileForceEngine.ZeroStaysZero | src/app/agileforce/page.tsx:143-149 | an emptied clock stays at 0 |
| AgileForceEngine.PressOutcome | src/app/agileforce/page.tsx:213-225 | a press misses a wait and hits an execute; on a multi it only counts until the third press, which hits and resets the counter; a resolved press agrees with `Classify` |
| AgileForceEngine.MultiNeedsThreePresses | src/app/agileforce/page.tsx:215-222 | example: from a fresh multi obstacle, the first two presses are only counted and the third scores a hit |
| AgileForceEngine.GradeOf | src/app/agileforce/page.tsx:255 | no grade before a difficulty is chosen; afterwards the grade of the results at that difficulty |
| AgileForceEngine.Initial | src/app/agileforce/page.tsx:87-98 | the first render is the briefing screen with everything at rest, and satisfies the invariant |
| AgileForceEngine.ProceedKeepsWellFormed | src/app/agileforce/page.tsx:323 | Proceed leads from the briefing to the selection screen with everything still at rest |
| AgileForceEngine.BackKeepsWellFormed | src/app/agileforce/page.tsx:350 | Back leads from selection to the briefing with everything still at rest |
| AgileForceEngine.SelectDifficulty | src/app/agileforce/page.tsx:170-182 | choosing a difficulty stores it and the new course, resets the index, results and press counter, and starts the countdown at 3 |
| AgileForceEngine.SelectKeepsWellFormed | src/app/agileforce/page.tsx:170-183 | choosing a playable difficulty with a course of its length holding one wait, one multi and executes otherwise keeps the invariant |
| AgileForceEngine.CountdownTick | src/app/agileforce/page.tsx:184-207 | the 900 ms interval counts down; at zero it stops and schedules the 400 ms settle timeout; with no countdown nothing changes |
| AgileForceEngine.CountdownTickKeepsWellFormed | src/app/agileforce/page.tsx:184-207 | a countdown tick keeps the invariant |
| AgileForceEngine.CountdownRunsDown | src/app/agileforce/page.tsx:181-207 | example: three ticks from a fresh countdown show 2, 1 and 0, then the settle timeout is pending for the chosen difficulty |
| AgileForceEngine.SettleKeepsWellFormed | src/app/agileforce/page.tsx:189-203 | the settle timeout starts play at the first obstacle with no results, keeping the invariant |
| AgileForceEngine.Tick | src/app/agileforce/page.tsx:142-151 | a tick of a running obstacle interval takes 16 ms off and stops the interval at zero; an idle interval changes nothing |
| AgileForceEngine.TickKeepsWellFormed | src/app/agileforce/page.tsx:142-151 | a tick keeps the invariant |
| AgileForceEngine.TickNKeepsWellFormed | src/app/agileforce/page.tsx:142-151 | any number of ticks keeps the invariant |
| AgileForceEngine.TickNCountsDown | src/app/agileforce/page.tsx:137-152 | n ticks of a running interval leave `Ticks(time, n)`, running exactly while time remains, on the same screen and results |
| AgileForceEngine.TickNIdle | src/app/agileforce/page.tsx:102-107 | a cleared interval never changes the state |
| AgileForceEngine.Advance | src/app/agileforce/page.tsx:109-118 | with the latch set nothing happens; otherwise the latch is set, the interval cleared, the result shown and the 350 ms record scheduled, and nothing is recorded yet |
| AgileForceEngine.AdvanceKeepsWellFormed | src/app/agileforce/page.tsx:109-135 | resolving the current obstacle with its classified result keeps the invariant |
| AgileForceEngine.ExpiryEffect | src/app/agileforce/page.tsx:154-165 | the effect resolves the current obstacle by expiry only while playing with the clock at 0 and the latch free; otherwise it does nothing |
| AgileForceEngine.ExpiryKeepsWellFormed | src/app/agileforce/page.tsx:154-165 | the expiry effect keeps the invariant |
| AgileForceEngine.HandleExecute | src/app/agileforce/page.tsx:210-226 | a press counts only while playing with the latch free: it resolves per `PressOutcome`, otherwise only the multi counter moves; the clock is never touched |
| AgileForceEngine.HandleExecuteKeepsWellFormed | src/app/agileforce/page.tsx:210-226 | a press keeps the invariant |
| AgileForceEngine.FeedbackDone | src/app/agileforce/page.tsx:118-131 | the 350 ms timeout releases the latch and appends the result; after the last obstacle it shows the results screen with the index unchanged, otherwise it moves to the next obstacle and restarts its clock |
| AgileForceEngine.RecordedFollowsCourse | src/app/agileforce/page.tsx:116-127 | every recorded result is the classification of its obstacle by the way it was resolved |
| AgileForceEngine.FeedbackDoneKeepsWellFormed | src/app/agileforce/page.tsx:118-131 | recording keeps the invariant, appends exactly the pending result, and either ends the course or advances the index by one |
| AgileForceEngine.StartObstacleTimer | src/app/agileforce/page.tsx:137-141 | with a difficulty, the clock restarts at its window and runs; without one nothing happens |
| AgileForceEngine.Restart | src/app/agileforce/page.tsx:241-253 | restart shows the briefing screen and leaves the countdown, settle and feedback timeouts pending as they were; from a well-formed results screen every field is back at rest |
| AgileForceEngine.RestartKeepsWellFormed | src/app/agileforce/page.tsx:241-253 | restarting from the results screen puts every field back at rest |
| AgileForceEngine.Step | src/app/agileforce/page.tsx:109-253 | an event the page cannot deliver (a button not on screen) changes nothing; a chosen difficulty gets the course `generateObstacles` draws from the event's random values |
| AgileForceEngine.StepKeepsWellFormed | src/app/agileforce/page.tsx:109-253 | every event keeps the invariant |
| AgileForceEngine.RunKeepsWellFormed | src/app/agileforce/page.tsx:109-253 | any sequence of events keeps the invariant |
| AgileForceEngine.ReachableWellFormed | src/app/agileforce/page.tsx:86-253 | every state reachable from the first render is well formed |
| AgileForceEngine.LatchBlocksResolution | src/app/agileforce/page.tsx:109-165 | while the latch is set, neither a press nor the expiry effect changes anything |
| AgileForceEngine.PressRacesExpiry | src/app/agileforce/page.tsx:154-226 | a press landing between the emptying tick and the expiry effect still records exactly one result: the press's, or an expiry miss when it only counted a multi press |
| AgileForceEngine.ExpiryRacesPress | src/app/agileforce/page.tsx:154-226 | when the expiry effect runs first, the late press is ignored and exactly one expiry result is recorded |
| AgileForceEngine.ResultsCoverCourse | src/app/agileforce/page.tsx:122-124 | on the results screen there is one result per obstacle, each the classification of its obstacle, and the grade is computed from them; the course holds exactly one wait and one multi obstacle, executes otherwise |
| AgileForcePage.Engine.constructor | src/app/agileforce/page.tsx:87-98 | a new page is in the initial state, with the obstacle pool |
| AgileForcePage.Engine.Proceed | src/app/agileforce/page.tsx:323 | on the briefing screen, keeps the invariant and updates the fields exactly as `AgileForceEngine.Proceed` |
| AgileForcePage.Engine.BackToBriefing | src/app/agileforce/page.tsx:350 | on the selection screen, keeps the invariant and updates the fields exactly as `AgileForceEngine.BackToBriefing` |
| AgileForcePage.Engine.SelectDifficulty | src/app/agileforce/page.tsx:170-179 | on the selection screen, generates the course by the loops, keeps the invariant and updates the fields exactly as `AgileForceEngine.SelectDifficulty` with that course |
| AgileForcePage.Engine.CountdownTick | src/app/agileforce/page.tsx:184-207 | keeps the invariant and updates the fields exactly as `AgileForceEngine.CountdownTick` |
| AgileForcePage.Engine.SettleDone | src/app/agileforce/page.tsx:189-203 | keeps the invariant and updates the fields exactly as `AgileForceEngine.SettleDone` |
| AgileForcePage.Engine.Tick | src/app/agileforce/page.tsx:142-151 | keeps the invariant and updates the fields exactly as `AgileForceEngine.Tick` |
| AgileForcePage.Engine.Advance | src/app/agileforce/page.tsx:109-118 | while playing, with the result `Classify` gives the current obstacle, keeps the invariant and updates the fields exactly as `AgileForceEngine.Advance` |
| AgileForcePage.Engine.ExpiryEffect | src/app/agileforce/page.tsx:154-165 | keeps the invariant and updates the fields exactly as `AgileForceEngine.ExpiryEffect` |
| AgileForcePage.Engine.HandleExecute | src/app/agileforce/page.tsx:210-226 | keeps the invariant and updates the fields exactly as `AgileForceEngine.HandleExecute` |
| AgileForcePage.Engine.FeedbackDone | src/app/agileforce/page.tsx:118-131 | keeps the invariant and updates the fields exactly as `AgileForceEngine.FeedbackDone` |
| AgileForcePage.Engine.StartObstacleTimer | src/app/agileforce/page.tsx:137-141 | with a difficulty, the clock is set to its window and runs; otherwise the clock is untouched |
| AgileForcePage.Engine.Restart | src/app/agileforce/page.tsx:241-253 | on the results screen, keeps the invariant and updates the fields exactly as `AgileForceEngine.Restart` |
| AgileForcePage.Engine.Grade | src/app/agileforce/page.tsx:255 | once a difficulty is chosen, the shown grade is `computeGrade` of the results |
| AgileForcePage.PressRacesExpiry | src/app/agileforce/page.tsx:154-226 | on the class: a press, the expiry effect and the feedback timeout in that order append exactly one result and release the latch |
| JsText.LeadingSpace | src/app/officeodyssey/page.tsx:129 | the leading run of white space is maximal |
| JsText.TrailingSpace | src/app/officeodyssey/page.tsx:129 | the trailing run of white space is maximal |
| JsText.Trim | src/app/officeodyssey/page.tsx:129 | `trim()` gives the input without its maximal leading and trailing white space; it is empty exactly when the input is all white space |
| JsText.TrimKeepsTrimmed | src/app/officeodyssey/page.tsx:129 | trimming a trimmed string changes nothing |
| JsText.TrimIdempotent | src/app/npcdetect/page.tsx:119 | trimming twice is trimming once |
| JsText.Decimal | src/app/officeodyssey/page.tsx:88 | `String(n)` is a digit string without a leading zero that reads back as `n` |
| JsText.PadStart | src/app/officeodyssey/page.tsx:88 | `padStart` keeps the string as a suffix and fills up to the width with the pad character |
| JsText.ReadDecimalLeadingZeros | src/app/officeodyssey/page.tsx:88 | leading zeros do not change the value read |
| JsText.DecimalLength | src/app/officeodyssey/page.tsx:88 | numbers below 10 take one digit and below 100 at most two |
| JsText.PaddedDecimal | src/app/officeodyssey/page.tsx:88 | a zero-padded `String(n)` still reads back as `n` |
| TaggedBlocks.FindFrom | src/app/officeodyssey/page.tsx:49 | finds the first occurrence of the pattern at or after a position, or reports that there is none |
| TaggedBlocks.BlockFrom | src/app/officeodyssey/page.tsx:49 | the first block starting at or after a position is the leftmost opening tag that has a closing tag after it, closed at the nearest one |
| TaggedBlocks.FirstBlock | src/app/officeodyssey/page.tsx:49 | the lazy regex matches exactly the leftmost opening tag followed by a closing tag, up to the nearest closing tag; no match iff no such opening tag |
| TaggedBlocks.ParseNeedsBlock | src/app/officeodyssey/page.tsx:48-52 | without a match there is no parsed value, and a parsed value implies a match |
| TaggedBlocks.ParseOfBlock | src/app/officeodyssey/page.tsx:48-52 | the value parsed is the decode of the text between the tags of the first match |
| TaggedBlocks.StripBlocks | src/app/officeodyssey/page.tsx:55 | the global replace never lengthens the text, leaves block-free text alone, and cuts the first block |
| TaggedBlocks.StripOfBlock | src/app/officeodyssey/page.tsx:55 | the global replace keeps the text before the first block and continues after it |
| TaggedBlocks.CleanTrimmed | src/app/officeodyssey/page.tsx:54-56 | the cleaned text is trimmed, and is just the trimmed text when there is no block |
| TaggedBlocks.CleanIsTrimOfStrip | src/app/officeodyssey/page.tsx:54-56 | cleaning is trimming what the global replace leaves |
| TaggedBlocks.DisplayedFallback | src/app/officeodyssey/page.tsx:113-114 | `clean \|\| reply`: the cleaned text when non-empty, else the raw reply, so a non-empty reply never shows empty |
| TaggedBlocks.NoBracketNoBlock | src/app/officeodyssey/page.tsx:49 | text with no `[` has no block |
| TaggedBlocks.FirstBlockAt | src/app/officeodyssey/page.tsx:49 | with no `[` before the opening tag or inside the block, the match is exactly that block |
| TaggedBlocks.ParseBracketFreeReply | src/app/officeodyssey/page.tsx:48-52 | such a reply parses to the decode of its block body |
| TaggedBlocks.CleanBracketFreeReply | src/app/officeodyssey/page.tsx:54-56 | such a reply cleans to the trimmed text around its block |
| TaggedBlocks.NarrationReply | src/app/officeodyssey/page.tsx:48-56 | a reply `prose [TAG]body[/TAG] rest` parses to `decode(body)` and cleans to `trim(prose + rest)` |
| TaggedBlocks.StripNarration | src/app/officeodyssey/page.tsx:55 | the global replace on `prose [TAG]body[/TAG] rest` keeps the prose, drops the block and carries on over the rest, whatever it holds |
| TaggedBlocks.CleanNarration | src/app/officeodyssey/page.tsx:54-56 | such a reply cleans to the trimmed prose followed by the stripped rest |
| TaggedBlocks.StripTwoBlocks | src/app/officeodyssey/page.tsx:55 | with two blocks, both are removed and only the three stretches of prose remain |
| TaggedBlocks.FindsAt | src/app/officeodyssey/page.tsx:49 | the search returns the first occurrence |
| ChatTranscript.UserTurnsAppend | src/app/officeodyssey/page.tsx:129-135 | appending a trimmed non-empty user turn, or any assistant turn, keeps every user turn trimmed and non-empty |
| ChatTranscript.AssistantTurnsAppend | src/app/npcdetect/page.tsx:145-147 | appending an assistant turn adds one to the count of assistant turns; a user turn adds none |
| ChatTranscript.AssistantTurnsBounded | src/app/npcdetect/page.tsx:44 | there are never more assistant turns than turns |
| OfficeOdysseyPage.OutcomeTagsBracketed | src/app/officeodyssey/page.tsx:49 | constant fact: both outcome tags start with `[`, so bracket-free prose holds no tag |
| OfficeOdysseyPage.EndingNeedsBlock | src/app/officeodyssey/page.tsx:48-52 | `parseOutcome` gives an outcome only when an `[OUTCOME]…[/OUTCOME]` block is present |
| OfficeOdysseyPage.CleanTextTrimmed | src/app/officeodyssey/page.tsx:54-56 | `cleanText` is trimmed, and is the trimmed reply when there is no block |
| OfficeOdysseyPage.ReplyFallback | src/app/officeodyssey/page.tsx:113-114 | the shown narration is the cleaned text unless that is empty, then the raw reply; a non-empty reply never shows empty |
| OfficeOdysseyPage.ReadNarration | src/app/officeodyssey/page.tsx:48-56 | a narration with an outcome block parses to the block's outcome and shows the prose around it |
| OfficeOdysseyPage.TwoOutcomeBlocks | src/app/officeodyssey/page.tsx:48-56 | with two outcome blocks the first is the one decoded, and both are cut from the shown text |
| OfficeOdysseyPage.ReadPlainNarration | src/app/officeodyssey/page.tsx:48-56 | a narration without `[` has no outcome and shows trimmed |
| OfficeOdysseyPage.BareBlockShownRaw | src/app/officeodyssey/page.tsx:144-145 | example: a reply that is only an outcome block cleans to nothing, so the raw block is shown |
| OfficeOdysseyPage.ReadClock | src/app/officeodyssey/page.tsx:88 | a clock that reads back has at least five characters with a colon before the last two |
| OfficeOdysseyPage.FormatTimeRoundTrip | src/app/officeodyssey/page.tsx:85-89 | `formatTime` reads back as whole minutes and the seconds below 60, which together give the input |
| OfficeOdysseyPage.ClockRoundTrip | src/app/officeodyssey/page.tsx:88 | the `mm:ss` template reads back as its minutes and seconds whenever the seconds have at most two digits |
| OfficeOdysseyPage.FormatTimeInjective | src/app/officeodyssey/page.tsx:85-89 | different times never show the same clock |
| OfficeOdysseyPage.FormatTimeWidth | src/app/officeodyssey/page.tsx:85-89 | below 100 minutes the clock is exactly five characters |
| OfficeOdysseyPage.RoomInCycle | src/app/officeodyssey/page.tsx:91-93 | the current room is always one of the twelve rooms |
| OfficeOdysseyPage.RoomPeriodic | src/app/officeodyssey/page.tsx:91-93 | the rooms repeat every twelve actions |
| OfficeOdysseyPage.RoomsDistinct | src/app/officeodyssey/page.tsx:15-28 | the twelve rooms are all different |
| OfficeOdysseyPage.SameRoom | src/app/officeodyssey/page.tsx:91-93 | two action counts show the same room exactly when they agree modulo twelve |
| OfficeOdysseyPage.ReadFirstReply | src/app/officeodyssey/page.tsx:111-122 | a reply is narrated (shown per `clean \|\| reply`, with its parsed outcome); a failed call gives the fixed building message |
| OfficeOdysseyPage.ReadActionReply | src/app/officeodyssey/page.tsx:142-157 | a reply is narrated as above; a failed call gives its message, or "An error occurred." when that is empty |
| OfficeOdysseyPage.NarratedText | src/app/officeodyssey/page.tsx:142-145 | a non-empty reply is never shown empty, and a reply without a block never ends the game |
| OfficeOdysseyPage.Game.constructor | src/app/officeodyssey/page.tsx:59-67 | the intro screen, an empty transcript and input, clock and counter at 0, no outcome, no error |
| OfficeOdysseyPage.Game.CurrentRoom | src/app/officeodyssey/page.tsx:91-93 | the room shown is the cycle entry for the action count |
| OfficeOdysseyPage.Game.ClockTick | src/app/officeodyssey/page.tsx:72-76 | the one-second interval adds a second only on the playing screen |
| OfficeOdysseyPage.Game.SetInput | src/app/officeodyssey/page.tsx:62 | the input holds what was typed |
| OfficeOdysseyPage.Game.BeginAdventure | src/app/officeodyssey/page.tsx:106-109 | beginning shows the playing screen, waits and clears the error |
| OfficeOdysseyPage.Game.AdventureReply | src/app/officeodyssey/page.tsx:111-124 | the first narration becomes the whole transcript and an outcome ends the game at once; a failure only sets the error; waiting stops either way |
| OfficeOdysseyPage.Game.SubmitAction | src/app/officeodyssey/page.tsx:128-139 | an action is sent exactly when its trimmed text is non-empty and no reply is awaited; then the trimmed text is appended as a user turn, the input is cleared and the action count rises by one, otherwise nothing changes |
| OfficeOdysseyPage.Game.ActionReply | src/app/officeodyssey/page.tsx:141-159 | a narration is appended and an outcome is scheduled for the 1200 ms timeout, not shown at once; a failure sets the error; waiting stops either way |
| OfficeOdysseyPage.Game.EndingTimer | src/app/officeodyssey/page.tsx:151-154 | the timeout shows the scheduled outcome on the ended screen |
| OfficeOdysseyPage.Game.Restart | src/app/officeodyssey/page.tsx:162-172 | every field shown returns to its initial value |
| NpcDetectPage.VerdictTagsBracketed | src/app/npcdetect/page.tsx:21 | constant fact: both verdict tags start with `[`, so bracket-free prose holds no tag |
| NpcDetectPage.VerdictNeedsBlock | src/app/npcdetect/page.tsx:20-24 | `parseVerdict` gives a verdict only when a `[VERDICT]…[/VERDICT]` block is present |
| NpcDetectPage.CleanTextTrimmed | src/app/npcdetect/page.tsx:26-28 | `cleanText` is trimmed, and is the trimmed reply when there is no block |
| NpcDetectPage.ReplyFallback | src/app/npcdetect/page.tsx:133-134 | the shown reply is the cleaned text unless that is empty, then the raw reply |
| NpcDetectPage.ReadClosingReply | src/app/npcdetect/page.tsx:20-28 | a reply with a verdict block parses to the block's verdict and cleans to the prose around it |
| NpcDetectPage.TwoVerdictBlocks | src/app/npcdetect/page.tsx:20-28 | with two verdict blocks the first is the one decoded, and both are cut from the closing line |
| NpcDetectPage.ReadQuestion | src/app/npcdetect/page.tsx:20-28 | a question without `[` carries no verdict and cleans to its trimmed text |
| NpcDetectPage.GetColorClass | src/app/npcdetect/page.tsx:30-34 | "human" iff score ≤ 30, "npc" iff score ≥ 61, "inconclusive" iff strictly between |
| NpcDetectPage.ColorClassesPartition | src/app/npcdetect/page.tsx:30-34 | every score gets exactly one of the three classes |
| NpcDetectPage.ColorMonotone | src/app/npcdetect/page.tsx:30-34 | a higher score never gets a more human class |
| NpcDetectPage.ProgressLabel | src/app/npcdetect/page.tsx:257 | the label shows the question count up to seven and seven beyond it |
| NpcDetectPage.ProgressMonotone | src/app/npcdetect/page.tsx:257 | the label never goes down as the count rises |
| NpcDetectPage.ReadOpening | src/app/npcdetect/page.tsx:105-113 | an opening is a verdict exactly when the reply parses to one; otherwise the raw reply is the first question; a failed call is a failure |
| NpcDetectPage.ReadAnswer | src/app/npcdetect/page.tsx:131-151 | a verdict is due exactly when the reply parses to one, with its cleaned closing line; otherwise the follow-up is shown per `clean \|\| reply`; a failed call gives its message or "Something went wrong." |
| NpcDetectPage.AnswerShownText | src/app/npcdetect/page.tsx:133-146 | a closing line is trimmed, and a non-empty follow-up is never shown empty |
| NpcDetectPage.Interview.constructor | src/app/npcdetect/page.tsx:37-47 | the boot screen with six pending boot lines, an empty transcript, no questions, no verdict, no error |
| NpcDetectPage.Interview.SetInput | src/app/npcdetect/page.tsx:42 | the input holds what was typed |
| NpcDetectPage.Interview.BeginInterview | src/app/npcdetect/page.tsx:101-103 | beginning shows the interview screen and waits |
| NpcDetectPage.Interview.InterviewReply | src/app/npcdetect/page.tsx:104-115 | an opening verdict shows the verdict screen at once and leaves waiting set; a question becomes the whole transcript with the count at 1; a failure sets the connection message; the count always equals the assistant turns |
| NpcDetectPage.Interview.SubmitAnswer | src/app/npcdetect/page.tsx:118-128 | an answer is sent exactly when its trimmed text is non-empty and no reply is awaited; then it is appended as a user turn and the input cleared, otherwise nothing changes |
| NpcDetectPage.Interview.AnswerReply | src/app/npcdetect/page.tsx:130-153 | a verdict schedules its timeout (1800 ms after a shown closing line, 400 ms without) and keeps waiting; a follow-up is appended and the count rises by one; a failure sets the error; the count stays equal to the assistant turns |
| NpcDetectPage.Interview.ScheduleVerdict | src/app/npcdetect/page.tsx:136-143 | a non-empty closing line is shown but not added to the history, and the delay depends on it |
| NpcDetectPage.Interview.NextQuestion | src/app/npcdetect/page.tsx:145-147 | a follow-up joins the transcript and the question count rises by one |
| NpcDetectPage.Interview.VerdictTimer | src/app/npcdetect/page.tsx:140-143 | the timeout shows the scheduled verdict on the verdict screen |
| NpcDetectPage.Interview.Restart | src/app/npcdetect/page.tsx:156-168 | every field shown returns to its initial value, with the boot lines pending again |

## Left out

- The network. `callAPI` and the two proxy routes are not part of this model. A handler's
  continuation takes the reply as a `Reply` value, either its text or the
  thrown error's message. Which requests are in flight is not tracked, so a
  continuation can be applied at any time.
- `JSON.parse` is the `decode` parameter. A parse that succeeds with a falsy value
  (`null`, `0`, `""`, `false`) counts as no value, because the pages test `if (o)`.
  The fields of the decoded object are not validated, as in the source.
- NpcDetectPage.GetColorClass: the score is a `real`, so a decoded verdict whose
  `score` is missing or not a number cannot be represented. In the source
  `getColorClass(undefined)` (or `NaN`) fails both comparisons and gives
  "inconclusive"; the model does not cover that case.
- Time. Every timer is an explicit event or method that fires when called, and
  the model does not order timers by delay. Office Odyssey's 1200 ms ending
  and NPC Detect's verdict timeout are one scheduled value each (`endingDue`,
  `verdictDue`). A second scheduling before the first fires replaces it.
- `Math.random`. It is a parameter `random: nat -> real` whose k-th value is the
  k-th call. The distribution, and the uniformity of the shuffle, are not modelled.
- Floating point. The score animation, the hit-rate percentage, the timer bar
  and the progress bar width are display-only and not modelled. Scores and
  rates are exact reals, which agree with the source's doubles for any
  realistic number of results.
- NPC Detect's boot animation (the 650 ms line interval and the `bootDone`
  timeout) is not modelled. The fields exist and are reset by `Restart`, but
  nothing sets them, and the begin button's dependence on `bootDone` is not
  enforced.
- The randomly generated case number, rendering, auto-scroll, focus, the keyboard
  listener's key filter, and the static marketing pages are not part of this model.
- AgileForceEngine.Restart: restart leaves the countdown interval and the 400 ms
  and 350 ms timeouts alone, as the source does. Their state is kept, not
  cleared. The contract proves this harmless only when restarting from the
  results screen, the only place the button is shown.
- OfficeOdysseyPage.Game.Restart: does not cancel a pending ending timeout.
  `endingDue` survives, as in the source, where the 1200 ms callback still runs.
- NpcDetectPage.Interview.Restart: does not cancel a pending verdict timeout.
  `verdictDue` survives for the same reason.
- The memoised `advanceObstacle` and the keydown listener read `results`,
  `currentIdx`, `obstacles` and `currentObstacle` from the render they were
  created in. The model reads the current fields, so it assumes that each timer
  callback's state updates are rendered (and the listener re-registered) before
  the next event.
- A key pressed between the 350 ms callback and the render that follows it is
  not modelled. It would run the previous render's `handleExecute`. That resolves
  the same obstacle a second time, clears the interval just restarted, and its own
  callback writes `[...oldResults, r2]` over the newer results and advances the
  index again, skipping an obstacle. The model cannot reach this double resolution.
- The obstacle `label` field is named `name`, because `label` is a Dafny keyword.
