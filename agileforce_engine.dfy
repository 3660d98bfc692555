/**
 * The AgileForce obstacle-course engine (src/app/agileforce/page.tsx): the
 * page state and refs as one value, and one function per event that changes
 * them. Timers are explicit events: the 900 ms countdown
 * interval (`CountdownTick`), the 400 ms settle timeout (`SettleDone`), the
 * 16 ms obstacle interval (`Tick`), the 350 ms feedback timeout
 * (`FeedbackDone`); the expiry effect is its own event (`ExpiryEffect`),
 * because React runs it after rendering, so a keypress can come between a
 * tick that reaches 0 and the effect. The `processing` latch decides that race.
 *
 * Each event is a function on `State`, a value holding every field; the
 * lemmas say what the events promise together. The class that updates the
 * same fields in place is `AgileForcePage.Engine`.
 */
module AgileForceEngine {
  import opened Options
  import opened AgileForceCourse
  import opened AgileForceGrade

  datatype Screen = Briefing | Select | Countdown | Playing | Results

  datatype Difficulty = Difficulty(id: string, name: string, subLabel: string, count: nat, windowMs: nat)

  const Difficulties: seq<Difficulty> := [
    Difficulty("standard", "Standard", "Monday morning", 8, 1500),
    Difficulty("extreme", "Extreme", "Sprint planning day", 12, 900),
    Difficulty("audited", "We're Being Audited", "Self-explanatory", 15, 600)
  ]

  /** A difficulty the course can be played at: a positive response window. */
  predicate Playable(d: Difficulty)
  {
    d.windowMs > 0
  }

  /** Every listed difficulty is playable and asks for at least two obstacles. */
  lemma DifficultiesWellFormed()
    ensures forall d :: d in Difficulties ==> Playable(d) && d.count >= 2
  {
  }

  /** The obstacle interval's period, and the amount each tick takes off the clock. */
  const TickMs: nat := 16

  /** The countdown's starting value. */
  const CountdownStart: nat := 3

  /** How an obstacle was resolved: a press of EXECUTE, or the clock running out. */
  datatype Cause = Pressed | Expired

  /**
   * The result of resolving an obstacle of type `kind`: a press scores a hit
   * and expiry a miss, except on a Wait obstacle, where both are inverted.
   */
  function Classify(kind: ObstacleType, cause: Cause): (r: Outcome)
    ensures r == Hit <==> (kind == Wait <==> cause == Expired)
  {
    match cause
    case Pressed => if kind == Wait then Miss else Hit
    case Expired => if kind == Wait then Hit else Miss
  }

  /** Pressing and waiting never score the same on one obstacle. */
  lemma ClassifyCausesDisagree(kind: ObstacleType)
    ensures Classify(kind, Pressed) != Classify(kind, Expired)
  {
  }

  /** The tick's updater: 16 ms off the clock, and 0 (with the interval cleared) once it would reach 0 or less. */
  function NextTime(prev: int): (next: int)
    ensures next >= 0
    ensures next <= prev || prev < 0
    ensures next == 0 <==> prev <= TickMs
  {
    var next := prev - TickMs;
    if next <= 0 then 0 else next
  }

  /** The clock after `n` ticks from `t`. */
  function Ticks(t: int, n: nat): int
    decreases n
  {
    if n == 0 then t else Ticks(NextTime(t), n - 1)
  }

  /** From a window of `w` ms the clock reads `max(0, w - 16 n)` after `n` ticks. */
  lemma {:induction false} TicksCountDown(w: nat, n: nat)
    ensures Ticks(w, n) == if TickMs * n >= w then 0 else w - TickMs * n
  {
    if n > 0 {
      TicksCountDown(NextTime(w), n - 1);
      if w > TickMs {
        assert NextTime(w) == w - TickMs;
      } else {
        ZeroStaysZero(n - 1);
      }
    }
  }

  lemma {:induction false} ZeroStaysZero(n: nat)
    ensures Ticks(0, n) == 0
  {
    if n > 0 {
      ZeroStaysZero(n - 1);
    }
  }

  /**
   * `handleExecute` on an obstacle of type `kind` with `multiCount` presses
   * so far: the result it records, if any, and the new press count.
   */
  function PressOutcome(kind: ObstacleType, multiCount: nat): (r: (Option<Outcome>, nat))
    ensures kind == Wait ==> r == (Some(Miss), multiCount)
    ensures kind == Execute ==> r == (Some(Hit), multiCount)
    ensures kind == Multi ==> (r.0.Some? <==> multiCount + 1 >= 3)
    ensures kind == Multi && r.0.Some? ==> r == (Some(Hit), 0)
    ensures kind == Multi && r.0.None? ==> r.1 == multiCount + 1
    ensures r.0.Some? ==> r.0.value == Classify(kind, Pressed)
  {
    match kind
    case Wait => (Some(Miss), multiCount)
    case Multi =>
      var newCount := multiCount + 1;
      if newCount >= 3 then (Some(Hit), 0) else (None, newCount)
    case Execute => (Some(Hit), multiCount)
  }

  /** On a fresh multi obstacle the first two presses only count and the third scores a hit. */
  lemma {:induction false} MultiNeedsThreePresses()
    ensures PressOutcome(Multi, 0) == (None, 1)
    ensures PressOutcome(Multi, 1) == (None, 2)
    ensures PressOutcome(Multi, 2) == (Some(Hit), 0)
  {
  }

  /** The pending 900 ms countdown interval, with its local `count` and the difficulty it closed over. */
  datatype CountdownTimer = CountdownTimer(count: int, diff: Difficulty)

  /**
   * The pending 350 ms feedback timeout, with what `advanceObstacle` closed
   * over: the result, `newResults`, `currentIdx` and `obstacles.length`.
   */
  datatype Feedback = Feedback(outcome: Outcome, newResults: seq<Outcome>, idx: nat, length: nat)

  /** `difficulty ? computeGrade(results, difficulty.id) : ""`. */
  function GradeOf(difficulty: Option<Difficulty>, results: seq<Outcome>): (g: string)
    ensures difficulty.None? ==> g == ""
    ensures difficulty.Some? ==> g == ComputeGrade(results, difficulty.value.id)
  {
    match difficulty
    case None => ""
    case Some(d) => ComputeGrade(results, d.id)
  }

  /**
   * Every field of the page: its React state, its two refs (the obstacle
   * interval as `timerActive`, the latch as `processing`), the three pending
   * timers, and how each result came about (`causes`, `pendingCause`).
   */
  datatype State = State(
    screen: Screen,
    difficulty: Option<Difficulty>,
    obstacles: seq<Obstacle>,
    currentIdx: nat,
    results: seq<Outcome>,
    countdownValue: int,
    timeRemaining: int,
    feedback: Option<Outcome>,
    multiCount: nat,
    timerActive: bool,
    processing: bool,
    countdown: Option<CountdownTimer>,
    settle: Option<Difficulty>,
    pending: Option<Feedback>,
    causes: seq<Cause>,
    pendingCause: Cause)

  /** The page as it first renders: the briefing screen, nothing scheduled. */
  function Initial(): (s: State)
    ensures WellFormed(s) && s.screen == Briefing && AtRest(s)
  {
    State(Briefing, None, [], 0, [], CountdownStart, 0, None, 0, false, false, None, None, None, [], Pressed)
  }

  /** The state of the briefing and selection screens: every field at its initial value. */
  predicate AtRest(s: State)
  {
    && s.difficulty.None? && s.obstacles == [] && s.currentIdx == 0 && s.results == [] && s.causes == []
    && s.countdownValue == CountdownStart as int && s.timeRemaining == 0 && s.multiCount == 0
    && !s.timerActive && !s.processing && s.countdown.None? && s.settle.None? && s.pending.None?
    && s.feedback.None?
  }

  /** Each recorded result is the classification of its obstacle by the way it was resolved. */
  predicate ResultsFollowCourse(s: State)
  {
    && |s.results| == |s.causes| <= |s.obstacles|
    && forall k :: 0 <= k < |s.results| ==> s.results[k] == Classify(s.obstacles[k].kind, s.causes[k])
  }

  /** The countdown screen: course drawn, nothing recorded, one countdown timer pending. */
  predicate CountingDown(s: State)
    requires s.difficulty.Some?
  {
    && s.currentIdx == 0 && s.results == [] && s.multiCount == 0
    && (s.countdown.Some? <==> s.settle.None?)
    && (s.countdown.Some? ==> s.countdown.value.diff == s.difficulty.value
                              && 1 <= s.countdown.value.count <= CountdownStart
                              && s.countdownValue == s.countdown.value.count)
    && (s.settle.Some? ==> s.settle.value == s.difficulty.value && s.countdownValue == 0)
  }

  /**
   * The playing screen: one result per obstacle before the current one, the
   * clock within the window, the interval running only while no result is
   * pending, and a pending result extending the list by the current obstacle's.
   */
  predicate InPlay(s: State)
    requires s.difficulty.Some?
  {
    && s.currentIdx < |s.obstacles| && |s.results| == s.currentIdx
    && 0 <= s.timeRemaining <= s.difficulty.value.windowMs
    && (s.timerActive ==> s.timeRemaining > 0 && s.pending.None?)
    && s.multiCount < 3 && (s.multiCount > 0 ==> s.obstacles[s.currentIdx].kind == Multi)
    && (s.pending.Some? ==>
          && s.feedback == Some(s.pending.value.outcome)
          && s.pending.value.idx == s.currentIdx && s.pending.value.length == |s.obstacles|
          && s.pending.value.newResults == s.results + [s.pending.value.outcome]
          && s.pending.value.outcome == Classify(s.obstacles[s.currentIdx].kind, s.pendingCause))
  }

  /** The shape every generated course has: one Wait, one Multi, Execute obstacles otherwise. */
  predicate Drawn(course: seq<Obstacle>)
  {
    && CountKind(course, Wait) == 1 && CountKind(course, Multi) == 1
    && CountKind(course, Execute) == |course| - 2
  }

  /** The invariant every event keeps. */
  predicate WellFormed(s: State)
  {
    && (s.processing <==> s.pending.Some?)
    && (s.pending.None? ==> s.feedback.None?)
    && (s.screen != Playing ==> s.pending.None? && !s.timerActive)
    && (s.screen != Countdown ==> s.countdown.None? && s.settle.None?)
    && ((s.screen == Briefing || s.screen == Select) ==> AtRest(s))
    && (s.screen != Briefing && s.screen != Select ==>
          && s.difficulty.Some? && Playable(s.difficulty.value)
          && |s.obstacles| == CourseLength(s.difficulty.value.count)
          && Drawn(s.obstacles)
          && ResultsFollowCourse(s)
          && (s.screen == Countdown ==> CountingDown(s))
          && (s.screen == Playing ==> InPlay(s))
          && (s.screen == Results ==> |s.results| == |s.obstacles| && s.currentIdx == |s.obstacles| - 1))
  }

  /** The "Proceed to Difficulty Selection" button. */
  function Proceed(s: State): (t: State)
    ensures t.screen == Select
  {
    s.(screen := Select)
  }

  /** The "back" button of the selection screen. */
  function BackToBriefing(s: State): (t: State)
    ensures t.screen == Briefing
  {
    s.(screen := Briefing)
  }

  /** Leaving the briefing screen keeps every field at rest. */
  lemma ProceedKeepsWellFormed(s: State)
    requires WellFormed(s) && s.screen == Briefing
    ensures WellFormed(Proceed(s)) && AtRest(Proceed(s))
  {
  }

  /** Going back to the briefing screen keeps every field at rest. */
  lemma BackKeepsWellFormed(s: State)
    requires WellFormed(s) && s.screen == Select
    ensures WellFormed(BackToBriefing(s)) && AtRest(BackToBriefing(s))
  {
  }

  /**
   * `selectDifficulty(d)` followed by `startCountdown(d)`, given the course
   * `generateObstacles(d.count)` drew: index and results reset, and the
   * countdown interval scheduled at 3.
   */
  function SelectDifficulty(s: State, d: Difficulty, course: seq<Obstacle>): (t: State)
    ensures t.screen == Countdown && t.difficulty == Some(d) && t.obstacles == course
    ensures t.currentIdx == 0 && t.results == [] && t.multiCount == 0
    ensures t.countdown == Some(CountdownTimer(CountdownStart, d)) && t.countdownValue == CountdownStart as int
  {
    s.(difficulty := Some(d), obstacles := course, currentIdx := 0, results := [], causes := [],
       multiCount := 0, screen := Countdown,
       countdownValue := CountdownStart, countdown := Some(CountdownTimer(CountdownStart, d)))
  }

  /** Choosing a playable difficulty with a generated course of its length starts a well-formed countdown. */
  lemma SelectKeepsWellFormed(s: State, d: Difficulty, course: seq<Obstacle>)
    requires WellFormed(s) && s.screen == Select && Playable(d) && |course| == CourseLength(d.count)
    requires Drawn(course)
    ensures WellFormed(SelectDifficulty(s, d, course))
  {
  }

  /**
   * One firing of the countdown interval: `count--`; at 0 the interval is
   * cleared, 0 is shown and the 400 ms timeout scheduled, otherwise the new
   * count is shown. Nothing happens when the interval is not scheduled.
   */
  function CountdownTick(s: State): (t: State)
    ensures t.screen == s.screen && t.obstacles == s.obstacles && t.results == s.results
    ensures s.countdown.None? ==> t == s
    ensures s.countdown.Some? && s.countdown.value.count <= 1 ==>
              t.countdown.None? && t.countdownValue == 0 && t.settle == Some(s.countdown.value.diff)
    ensures s.countdown.Some? && s.countdown.value.count > 1 ==>
              t.countdown == Some(s.countdown.value.(count := s.countdown.value.count - 1))
              && t.countdownValue == s.countdown.value.count - 1
  {
    match s.countdown
    case None => s
    case Some(timer) =>
      var count := timer.count - 1;
      if count <= 0 then s.(countdown := None, countdownValue := 0, settle := Some(timer.diff))
      else s.(countdown := Some(timer.(count := count)), countdownValue := count)
  }

  lemma CountdownTickKeepsWellFormed(s: State)
    requires WellFormed(s)
    ensures WellFormed(CountdownTick(s))
  {
  }

  /** The countdown shows 3, 2, 1, 0 and then schedules the start of play. */
  lemma {:induction false} CountdownRunsDown(s: State)
    requires WellFormed(s) && s.screen == Countdown && s.countdown == Some(CountdownTimer(CountdownStart, s.difficulty.value))
    ensures CountdownTick(s).countdownValue == 2
    ensures CountdownTick(CountdownTick(s)).countdownValue == 1
    ensures CountdownTick(CountdownTick(CountdownTick(s))).countdownValue == 0
    ensures CountdownTick(CountdownTick(CountdownTick(s))).settle == s.difficulty
  {
    var t1 := CountdownTick(s);
    var t2 := CountdownTick(t1);
    assert t2.countdown.value.count == 1;
  }

  /**
   * The 400 ms timeout after the countdown: play starts, the clock is set to
   * the window and the obstacle interval is scheduled.
   */
  function SettleDone(s: State): (t: State)
    ensures s.settle.None? ==> t == s
    ensures s.settle.Some? ==>
              t.screen == Playing && t.settle.None? && t.timerActive
              && t.timeRemaining == s.settle.value.windowMs as int && t.obstacles == s.obstacles
  {
    match s.settle
    case None => s
    case Some(d) => s.(settle := None, screen := Playing, timeRemaining := d.windowMs, timerActive := true)
  }

  /** Play starts on the first obstacle with nothing recorded. */
  lemma SettleKeepsWellFormed(s: State)
    requires WellFormed(s)
    ensures WellFormed(SettleDone(s))
    ensures s.settle.Some? ==> SettleDone(s).currentIdx == 0 && SettleDone(s).results == []
  {
  }

  /** One firing of the 16 ms obstacle interval; nothing happens when it is not running. */
  function Tick(s: State): (t: State)
    ensures !s.timerActive ==> t == s
    ensures s.timerActive ==> t == s.(timeRemaining := NextTime(s.timeRemaining), timerActive := NextTime(s.timeRemaining) > 0)
  {
    if !s.timerActive then s
    else
      var next := NextTime(s.timeRemaining);
      s.(timeRemaining := next, timerActive := next > 0)
  }

  lemma TickKeepsWellFormed(s: State)
    requires WellFormed(s)
    ensures WellFormed(Tick(s))
  {
  }

  /** `n` firings of the obstacle interval. */
  function TickN(s: State, n: nat): (t: State)
    decreases n
  {
    if n == 0 then s else TickN(Tick(s), n - 1)
  }

  lemma {:induction false} TickNKeepsWellFormed(s: State, n: nat)
    requires WellFormed(s)
    ensures WellFormed(TickN(s, n))
    decreases n
  {
    if n > 0 {
      TickKeepsWellFormed(s);
      TickNKeepsWellFormed(Tick(s), n - 1);
    }
  }

  /**
   * With the interval running from a full window and nothing else happening,
   * the clock reads `max(0, windowMs - 16 n)` after `n` ticks, so it expires
   * after `ceil(windowMs / 16)` ticks.
   */
  lemma {:induction false} TickNCountsDown(s: State, n: nat)
    requires WellFormed(s) && s.timerActive
    ensures TickN(s, n).timeRemaining == Ticks(s.timeRemaining, n)
    ensures TickN(s, n).timerActive <==> TickN(s, n).timeRemaining > 0
    ensures TickN(s, n).screen == s.screen && TickN(s, n).results == s.results
    decreases n
  {
    if n > 0 {
      var t := Tick(s);
      TickKeepsWellFormed(s);
      if t.timerActive {
        TickNCountsDown(t, n - 1);
      } else {
        TickNIdle(t, n - 1);
        ZeroStaysZero(n - 1);
      }
    }
  }

  lemma {:induction false} TickNIdle(s: State, n: nat)
    requires !s.timerActive
    ensures TickN(s, n) == s
    decreases n
  {
    if n > 0 {
      TickNIdle(Tick(s), n - 1);
    }
  }

  /**
   * `advanceObstacle(result)`: ignored while the latch is set; otherwise the
   * latch is set, the interval cleared, the feedback shown and the 350 ms
   * callback scheduled with the extended result list.
   */
  function Advance(s: State, result: Outcome, cause: Cause): (t: State)
    ensures t.screen == s.screen
    ensures s.processing ==> t == s
    ensures !s.processing ==>
              t.processing && !t.timerActive && t.feedback == Some(result)
              && t.pending == Some(Feedback(result, s.results + [result], s.currentIdx, |s.obstacles|))
    ensures t.results == s.results && t.currentIdx == s.currentIdx && t.obstacles == s.obstacles
    ensures t.multiCount == s.multiCount && t.timeRemaining == s.timeRemaining
  {
    if s.processing then s
    else
      s.(processing := true, timerActive := false, feedback := Some(result),
         pending := Some(Feedback(result, s.results + [result], s.currentIdx, |s.obstacles|)),
         pendingCause := cause)
  }

  /** Resolving the current obstacle with its classification keeps the invariant. */
  lemma AdvanceKeepsWellFormed(s: State, result: Outcome, cause: Cause)
    requires WellFormed(s) && s.screen == Playing
    requires result == Classify(s.obstacles[s.currentIdx].kind, cause)
    ensures WellFormed(Advance(s, result, cause))
  {
  }

  /** The expiry effect would run: the playing screen, the clock at 0, the latch clear. */
  predicate ExpiryDue(s: State)
  {
    s.screen == Playing && s.timeRemaining <= 0 && !s.processing && s.currentIdx < |s.obstacles|
  }

  /** The expiry effect: when due, the obstacle resolves by expiry. */
  function ExpiryEffect(s: State): (t: State)
    ensures !ExpiryDue(s) ==> t == s
    ensures ExpiryDue(s) ==>
              var r := Classify(s.obstacles[s.currentIdx].kind, Expired);
              t.processing && t.feedback == Some(r)
              && t.pending == Some(Feedback(r, s.results + [r], s.currentIdx, |s.obstacles|))
    ensures t.screen == s.screen && t.results == s.results && t.currentIdx == s.currentIdx
  {
    if !ExpiryDue(s) then s
    else if s.obstacles[s.currentIdx].kind == Wait then Advance(s, Hit, Expired)
    else Advance(s, Miss, Expired)
  }

  lemma ExpiryKeepsWellFormed(s: State)
    requires WellFormed(s)
    ensures WellFormed(ExpiryEffect(s))
  {
    if ExpiryDue(s) {
      AdvanceKeepsWellFormed(s, Classify(s.obstacles[s.currentIdx].kind, Expired), Expired);
    }
  }

  /** `handleExecute` acts: the playing screen, an obstacle showing, the latch clear. */
  predicate PressCounts(s: State)
  {
    s.screen == Playing && s.currentIdx < |s.obstacles| && !s.processing
  }

  /** `handleExecute()`: a press of EXECUTE (button or key). */
  function HandleExecute(s: State): (t: State)
    ensures !PressCounts(s) ==> t == s
    ensures PressCounts(s) ==>
              var press := PressOutcome(s.obstacles[s.currentIdx].kind, s.multiCount);
              t.multiCount == press.1
              && (press.0.None? ==> t == s.(multiCount := press.1))
              && (press.0.Some? ==>
                    t.processing && !t.timerActive && t.feedback == press.0
                    && t.pending == Some(Feedback(press.0.value, s.results + [press.0.value],
                                                  s.currentIdx, |s.obstacles|)))
    ensures t.screen == s.screen && t.results == s.results && t.currentIdx == s.currentIdx
    ensures t.timeRemaining == s.timeRemaining
  {
    if !PressCounts(s) then s
    else
      var kind := s.obstacles[s.currentIdx].kind;
      if kind == Wait then Advance(s, Miss, Pressed)
      else if kind == Multi then
        var newCount := s.multiCount + 1;
        if newCount >= 3 then Advance(s.(multiCount := 0), Hit, Pressed)
        else s.(multiCount := newCount)
      else Advance(s, Hit, Pressed)
  }

  lemma HandleExecuteKeepsWellFormed(s: State)
    requires WellFormed(s)
    ensures WellFormed(HandleExecute(s))
  {
    if PressCounts(s) {
      var kind := s.obstacles[s.currentIdx].kind;
      if kind == Wait {
        AdvanceKeepsWellFormed(s, Miss, Pressed);
      } else if kind == Multi && s.multiCount + 1 >= 3 {
        AdvanceKeepsWellFormed(s.(multiCount := 0), Hit, Pressed);
      } else if kind == Execute {
        AdvanceKeepsWellFormed(s, Hit, Pressed);
      }
    }
  }

  /**
   * The 350 ms callback of `advanceObstacle`: the feedback cleared, the latch
   * released, the extended result list stored, and either the results screen
   * (after the last obstacle) or the next obstacle with a fresh clock.
   */
  function FeedbackDone(s: State): (t: State)
    ensures t.obstacles == s.obstacles && t.difficulty == s.difficulty
    ensures s.pending.None? ==> t == s
    ensures s.pending.Some? ==>
              !t.processing && t.pending.None? && t.feedback.None? && t.results == s.pending.value.newResults
  {
    match s.pending
    case None => s
    case Some(p) =>
      var u := Recorded(s, p);
      if p.idx + 1 >= p.length then u.(screen := Results)
      else StartObstacleTimer(u.(currentIdx := s.currentIdx + 1, multiCount := 0))
  }

  /** The callback's first effects: feedback cleared, latch released, `newResults` stored. */
  function Recorded(s: State, p: Feedback): State
  {
    s.(feedback := None, processing := false, pending := None,
       results := p.newResults, causes := s.causes + [s.pendingCause])
  }

  /** Storing the pending result keeps each result the classification of its obstacle. */
  lemma RecordedFollowsCourse(s: State)
    requires WellFormed(s) && s.pending.Some?
    ensures ResultsFollowCourse(Recorded(s, s.pending.value))
  {
    var u := Recorded(s, s.pending.value);
    forall k | 0 <= k < |u.results|
      ensures u.results[k] == Classify(u.obstacles[k].kind, u.causes[k])
    {
      if k < |s.results| {
        assert u.results[k] == s.results[k] && u.causes[k] == s.causes[k];
      }
    }
  }

  /**
   * The callback extends the results by the pending one, then moves to the
   * results screen after the last obstacle, or to the next obstacle with a
   * fresh clock and the interval running.
   */
  lemma FeedbackDoneKeepsWellFormed(s: State)
    requires WellFormed(s)
    ensures WellFormed(FeedbackDone(s))
    ensures s.pending.Some? ==> FeedbackDone(s).results == s.results + [s.pending.value.outcome]
    ensures s.pending.Some? && s.currentIdx + 1 >= |s.obstacles| ==>
              FeedbackDone(s).screen == Results && FeedbackDone(s).currentIdx == s.currentIdx
    ensures s.pending.Some? && s.currentIdx + 1 < |s.obstacles| ==>
              && FeedbackDone(s).screen == Playing && FeedbackDone(s).currentIdx == s.currentIdx + 1
              && FeedbackDone(s).multiCount == 0 && FeedbackDone(s).timerActive
              && FeedbackDone(s).timeRemaining == s.difficulty.value.windowMs as int
  {
    if s.pending.Some? {
      RecordedFollowsCourse(s);
    }
  }

  /** `startObstacleTimer()`: the clock back to the window and the interval scheduled. */
  function StartObstacleTimer(s: State): (t: State)
    ensures s.difficulty.None? ==> t == s
    ensures s.difficulty.Some? ==> t == s.(timeRemaining := s.difficulty.value.windowMs, timerActive := true)
  {
    match s.difficulty
    case None => s
    case Some(d) => s.(timeRemaining := d.windowMs, timerActive := true)
  }

  /**
   * `restart()`: the interval cleared, the latch released and every field
   * back to its initial value. The countdown interval and the 400 ms and
   * 350 ms timeouts are not cancelled, but none is pending on the results
   * screen, its only caller.
   */
  function Restart(s: State): (t: State)
    ensures t.screen == Briefing
    ensures t.countdown == s.countdown && t.settle == s.settle && t.pending == s.pending
    ensures s.screen == Results && WellFormed(s) ==> AtRest(t)
  {
    s.(timerActive := false, processing := false, screen := Briefing, difficulty := None, obstacles := [],
       currentIdx := 0, results := [], causes := [], countdownValue := CountdownStart, timeRemaining := 0,
       feedback := None, multiCount := 0)
  }

  /** From the results screen, restarting puts every field back at rest. */
  lemma RestartKeepsWellFormed(s: State)
    requires WellFormed(s) && s.screen == Results
    ensures WellFormed(Restart(s)) && AtRest(Restart(s))
  {
  }

  /** What can happen to the page: a button, a key, or a timer firing. */
  datatype Event =
    | ProceedPressed
    | BackPressed
    | DifficultyChosen(d: Difficulty, random: nat -> real)
    | CountdownFired
    | SettleFired
    | TickFired
    | ExpiryRan
    | ExecutePressed
    | FeedbackFired
    | RestartPressed

  /**
   * Whether the page can deliver `e` in `s`: each button exists only on its
   * screen, and a chosen difficulty comes with the `Math.random` draws its
   * course is generated from. Timers and keys can always fire; their
   * handlers check the rest.
   */
  ghost predicate Enabled(s: State, e: Event)
  {
    match e
    case ProceedPressed => s.screen == Briefing
    case BackPressed => s.screen == Select
    case DifficultyChosen(d, random) => s.screen == Select && Playable(d) && IsRandomSource(random)
    case RestartPressed => s.screen == Results
    case _ => true
  }

  /** The page after `e`; an event the page cannot deliver changes nothing. */
  ghost function Step(s: State, e: Event): (t: State)
    ensures !Enabled(s, e) ==> t == s
  {
    if !Enabled(s, e) then s
    else
      match e
      case ProceedPressed => Proceed(s)
      case BackPressed => BackToBriefing(s)
      case DifficultyChosen(d, random) => SelectDifficulty(s, d, Course(ObstaclePool, d.count, random))
      case CountdownFired => CountdownTick(s)
      case SettleFired => SettleDone(s)
      case TickFired => Tick(s)
      case ExpiryRan => ExpiryEffect(s)
      case ExecutePressed => HandleExecute(s)
      case FeedbackFired => FeedbackDone(s)
      case RestartPressed => Restart(s)
  }

  /** Every event keeps the invariant. */
  lemma StepKeepsWellFormed(s: State, e: Event)
    requires WellFormed(s)
    ensures WellFormed(Step(s, e))
  {
    if Enabled(s, e) {
      match e
      case ProceedPressed => ProceedKeepsWellFormed(s);
      case BackPressed => BackKeepsWellFormed(s);
      case DifficultyChosen(d, random) =>
        ObstaclePoolValid();
        CourseShape(ObstaclePool, d.count, random);
        SelectKeepsWellFormed(s, d, Course(ObstaclePool, d.count, random));
      case CountdownFired => CountdownTickKeepsWellFormed(s);
      case SettleFired => SettleKeepsWellFormed(s);
      case TickFired => TickKeepsWellFormed(s);
      case ExpiryRan => ExpiryKeepsWellFormed(s);
      case ExecutePressed => HandleExecuteKeepsWellFormed(s);
      case FeedbackFired => FeedbackDoneKeepsWellFormed(s);
      case RestartPressed => RestartKeepsWellFormed(s);
    }
  }

  /** The page after the events `es`, in order. */
  ghost function Run(s: State, es: seq<Event>): State
    decreases |es|
  {
    if es == [] then s else Run(Step(s, es[0]), es[1..])
  }

  /** Every state the page reaches from its first render satisfies the invariant. */
  lemma {:induction false} RunKeepsWellFormed(s: State, es: seq<Event>)
    requires WellFormed(s)
    ensures WellFormed(Run(s, es))
    decreases |es|
  {
    if es != [] {
      StepKeepsWellFormed(s, es[0]);
      RunKeepsWellFormed(Step(s, es[0]), es[1..]);
    }
  }

  /** In particular every reachable state is well formed. */
  lemma ReachableWellFormed(es: seq<Event>)
    ensures WellFormed(Run(Initial(), es))
  {
    RunKeepsWellFormed(Initial(), es);
  }

  /** While the latch is set, neither a press nor the expiry effect changes anything. */
  lemma LatchBlocksResolution(s: State)
    requires WellFormed(s) && s.processing
    ensures HandleExecute(s) == s && ExpiryEffect(s) == s
  {
  }

  /**
   * A press that lands between the tick that empties the clock and the expiry
   * effect: either the press resolves the obstacle (and the effect does
   * nothing), or it only counts a multi press and the effect resolves the
   * obstacle as a miss. Either way the callback records exactly one result.
   */
  lemma PressRacesExpiry(s: State)
    requires WellFormed(s) && s.screen == Playing && !s.processing && s.timeRemaining == 0
    ensures var t := FeedbackDone(ExpiryEffect(HandleExecute(s)));
            && t.results == s.results + [Classify(s.obstacles[s.currentIdx].kind,
                                                  if s.obstacles[s.currentIdx].kind == Multi && s.multiCount < 2
                                                  then Expired else Pressed)]
            && !t.processing
            && (t.screen == Results || t.currentIdx == s.currentIdx + 1)
  {
    HandleExecuteKeepsWellFormed(s);
    ExpiryKeepsWellFormed(HandleExecute(s));
    FeedbackDoneKeepsWellFormed(ExpiryEffect(HandleExecute(s)));
  }

  /** The other order: the expiry effect resolves the obstacle and the late press is ignored. */
  lemma ExpiryRacesPress(s: State)
    requires WellFormed(s) && s.screen == Playing && !s.processing && s.timeRemaining == 0
    ensures var t := FeedbackDone(HandleExecute(ExpiryEffect(s)));
            && t.results == s.results + [Classify(s.obstacles[s.currentIdx].kind, Expired)]
            && !t.processing
            && (t.screen == Results || t.currentIdx == s.currentIdx + 1)
  {
    ExpiryKeepsWellFormed(s);
    HandleExecuteKeepsWellFormed(ExpiryEffect(s));
    FeedbackDoneKeepsWellFormed(HandleExecute(ExpiryEffect(s)));
  }

  /**
   * On the results screen there is exactly one result per obstacle, each the
   * classification of its obstacle, and the grade is computed from them; the
   * course has one Wait obstacle, one Multi obstacle and Execute ones otherwise.
   */
  lemma ResultsCoverCourse(s: State)
    requires WellFormed(s) && s.screen == Results
    ensures |s.results| == |s.obstacles| == CourseLength(s.difficulty.value.count)
    ensures CountKind(s.obstacles, Wait) == 1 && CountKind(s.obstacles, Multi) == 1
    ensures CountKind(s.obstacles, Execute) == |s.obstacles| - 2
    ensures forall k :: 0 <= k < |s.results| ==> s.results[k] == Classify(s.obstacles[k].kind, s.causes[k])
    ensures GradeOf(s.difficulty, s.results) == ComputeGrade(s.results, s.difficulty.value.id)
  {
  }

}
