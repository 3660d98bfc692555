/**
 * The AgileForce page component (src/app/agileforce/page.tsx) as an object:
 * its React state and refs are fields, and each event handler, timer
 * callback and effect is a method that updates them in place. Each method is
 * proved to do what the event's function in `AgileForceEngine` says, so the
 * lemmas proved there hold of the page.
 */
module AgileForcePage {
  import opened Options
  import opened AgileForceCourse
  import opened AgileForceGrade
  import opened AgileForceEngine

  class Engine {
    /** `OBSTACLE_POOL`, the obstacles every course is drawn from. */
    const pool: seq<Obstacle>
    var screen: Screen
    var difficulty: Option<Difficulty>
    var obstacles: seq<Obstacle>
    var currentIdx: nat
    var results: seq<Outcome>
    var countdownValue: int
    var timeRemaining: int
    var feedback: Option<Outcome>
    var multiCount: nat
    /** `timerRef.current !== null`: the 16 ms obstacle interval is running. */
    var timerActive: bool
    /** `processingRef.current`: the resolution latch. */
    var processing: bool
    /** The countdown interval, while it is scheduled. */
    var countdown: Option<CountdownTimer>
    /** The 400 ms timeout that starts play, while it is scheduled. */
    var settle: Option<Difficulty>
    /** The 350 ms feedback timeout, while it is scheduled. */
    var pending: Option<Feedback>
    /** How each recorded result, and the pending one, came about. */
    ghost var causes: seq<Cause>
    ghost var pendingCause: Cause

    /** The fields as one value. */
    ghost function Snapshot(): State
      reads this
    {
      State(screen, difficulty, obstacles, currentIdx, results, countdownValue, timeRemaining, feedback,
            multiCount, timerActive, processing, countdown, settle, pending, causes, pendingCause)
    }

    /**
     * The pool is `OBSTACLE_POOL` and the fields satisfy
     * `AgileForceEngine.WellFormed`. Each event method below (a button, the
     * key handler, a timer or the expiry effect) requires it, together with
     * the screen its button is shown on, changes the fields as its event's
     * function does, and keeps it. The helpers they call in between
     * (`Begin`, `Record`, `NextObstacle`, `Stop`, ...) run on intermediate
     * states and promise only what they assign.
     */
    ghost predicate Valid()
      reads this
    {
      pool == ObstaclePool && WellFormed(Snapshot())
    }

    /** The page as it first renders. */
    constructor()
      ensures Snapshot() == Initial() && Valid()
      ensures pool == ObstaclePool
    {
      pool := ObstaclePool;
      screen := Briefing;
      difficulty := None;
      obstacles := [];
      currentIdx := 0;
      results := [];
      countdownValue := CountdownStart;
      timeRemaining := 0;
      feedback := None;
      multiCount := 0;
      timerActive := false;
      processing := false;
      countdown := None;
      settle := None;
      pending := None;
      causes := [];
      pendingCause := Pressed;
    }

    /** The "Proceed" button, shown on the briefing screen. */
    method Proceed()
      requires Valid() && screen == Briefing
      modifies this
      ensures Valid()
      ensures Snapshot() == AgileForceEngine.Proceed(old(Snapshot()))
    {
      ProceedKeepsWellFormed(Snapshot());
      screen := Select;
    }

    /** The "Back" button, shown on the selection screen. */
    method BackToBriefing()
      requires Valid() && screen == Select
      modifies this
      ensures Valid()
      ensures Snapshot() == AgileForceEngine.BackToBriefing(old(Snapshot()))
    {
      BackKeepsWellFormed(Snapshot());
      screen := Briefing;
    }

    /** `selectDifficulty(d)`: the course drawn from `random`, then `startCountdown(d)`. */
    method SelectDifficulty(d: Difficulty, random: nat -> real)
      requires Valid() && screen == Select && Playable(d) && IsRandomSource(random)
      modifies this
      ensures Valid()
      ensures Snapshot() == AgileForceEngine.SelectDifficulty(old(Snapshot()), d, Course(ObstaclePool, d.count, random))
    {
      ObstaclePoolValid();
      CourseShape(pool, d.count, random);
      SelectKeepsWellFormed(Snapshot(), d, Course(pool, d.count, random));
      var course := GenerateObstacles(pool, d.count, random);
      SetUpCourse(d, course);
    }

    /** The course stored, the countdown screen shown and `startCountdown(d)` run. */
    method SetUpCourse(d: Difficulty, course: seq<Obstacle>)
      modifies this
      ensures Snapshot() == AgileForceEngine.SelectDifficulty(old(Snapshot()), d, course)
    {
      Begin(d, course);
      screen := Countdown;
      StartCountdown(d);
    }

    /** The course set up: `difficulty`, `obstacles`, index, results and presses reset. */
    method Begin(d: Difficulty, course: seq<Obstacle>)
      modifies this`difficulty, this`obstacles, this`currentIdx, this`results, this`causes, this`multiCount
      ensures difficulty == Some(d) && obstacles == course && currentIdx == 0 && results == [] && causes == []
      ensures multiCount == 0
    {
      difficulty := Some(d);
      obstacles := course;
      currentIdx := 0;
      results := [];
      causes := [];
      multiCount := 0;
    }

    /** `startCountdown(d)`: `count = 3`, shown, and the interval scheduled. */
    method StartCountdown(d: Difficulty)
      modifies this`countdownValue, this`countdown
      ensures countdownValue == CountdownStart as int && countdown == Some(CountdownTimer(CountdownStart, d))
    {
      var count := CountdownStart;
      countdownValue := count;
      countdown := Some(CountdownTimer(count, d));
    }

    method CountdownTick()
      requires Valid()
      modifies this
      ensures Valid()
      ensures Snapshot() == AgileForceEngine.CountdownTick(old(Snapshot()))
    {
      CountdownTickKeepsWellFormed(Snapshot());
      match countdown
      case None =>
      case Some(timer) =>
        var count := timer.count - 1;
        if count <= 0 {
          countdown := None;
          countdownValue := 0;
          settle := Some(timer.diff);
        } else {
          countdown := Some(timer.(count := count));
          countdownValue := count;
        }
    }

    method SettleDone()
      requires Valid()
      modifies this
      ensures Valid()
      ensures Snapshot() == AgileForceEngine.SettleDone(old(Snapshot()))
    {
      SettleKeepsWellFormed(Snapshot());
      match settle
      case None =>
      case Some(d) =>
        settle := None;
        screen := Playing;
        timeRemaining := d.windowMs;
        timerActive := true;
    }

    /** `startObstacleTimer()`. */
    method StartObstacleTimer()
      modifies this`timeRemaining, this`timerActive
      ensures difficulty.None? ==> unchanged(this`timeRemaining, this`timerActive)
      ensures difficulty.Some? ==> timerActive && timeRemaining == difficulty.value.windowMs as int
    {
      match difficulty
      case None =>
      case Some(d) =>
        timerActive := false;
        timeRemaining := d.windowMs;
        timerActive := true;
    }

    method Tick()
      requires Valid()
      modifies this
      ensures Valid()
      ensures Snapshot() == AgileForceEngine.Tick(old(Snapshot()))
    {
      TickKeepsWellFormed(Snapshot());
      if timerActive {
        var next := NextTime(timeRemaining);
        if next <= 0 {
          timerActive := false;
        }
        timeRemaining := next;
      }
    }

    /** `advanceObstacle(result)`. */
    method Advance(result: Outcome, ghost cause: Cause)
      requires Valid() && screen == Playing && currentIdx < |obstacles|
      requires result == Classify(obstacles[currentIdx].kind, cause)
      modifies this
      ensures Valid()
      ensures Snapshot() == AgileForceEngine.Advance(old(Snapshot()), result, cause)
    {
      AdvanceKeepsWellFormed(Snapshot(), result, cause);
      if processing {
        return;
      }
      Latch(result, cause);
    }

    /** The latch set, the interval cleared, the result shown and the 350 ms callback scheduled. */
    method Latch(result: Outcome, ghost cause: Cause)
      modifies this`processing, this`timerActive, this`feedback, this`pending, this`pendingCause
      ensures processing && !timerActive && feedback == Some(result) && pendingCause == cause
      ensures pending == Some(Feedback(result, results + [result], currentIdx, |obstacles|))
    {
      processing := true;
      timerActive := false;
      feedback := Some(result);
      pending := Some(Feedback(result, results + [result], currentIdx, |obstacles|));
      pendingCause := cause;
    }

    /** The effect that resolves an obstacle whose clock has run out. */
    method ExpiryEffect()
      requires Valid()
      modifies this
      ensures Valid()
      ensures Snapshot() == AgileForceEngine.ExpiryEffect(old(Snapshot()))
    {
      ExpiryKeepsWellFormed(Snapshot());
      if screen != Playing || timeRemaining > 0 || processing {
        return;
      }
      if currentIdx >= |obstacles| {
        return;
      }
      if obstacles[currentIdx].kind == Wait {
        Advance(Hit, Expired);
      } else {
        Advance(Miss, Expired);
      }
    }

    /** `handleExecute()`. */
    method HandleExecute()
      requires Valid()
      modifies this
      ensures Valid()
      ensures Snapshot() == AgileForceEngine.HandleExecute(old(Snapshot()))
    {
      HandleExecuteKeepsWellFormed(Snapshot());
      if screen != Playing || currentIdx >= |obstacles| || processing {
        return;
      }
      var kind := obstacles[currentIdx].kind;
      if kind == Wait {
        Advance(Miss, Pressed);
      } else if kind == Multi {
        var newCount := multiCount + 1;
        if newCount >= 3 {
          multiCount := 0;
          Advance(Hit, Pressed);
        } else {
          multiCount := newCount;
        }
      } else {
        Advance(Hit, Pressed);
      }
    }

    /** The 350 ms callback scheduled by `advanceObstacle`. */
    method FeedbackDone()
      requires Valid()
      modifies this
      ensures Valid()
      ensures Snapshot() == AgileForceEngine.FeedbackDone(old(Snapshot()))
    {
      FeedbackDoneKeepsWellFormed(Snapshot());
      match pending
      case None =>
      case Some(p) => Conclude(p);
    }

    /** The callback's body for the pending result `p`: recorded, then the results screen or the next obstacle. */
    method Conclude(p: Feedback)
      requires pending == Some(p)
      modifies this
      ensures Snapshot() == AgileForceEngine.FeedbackDone(old(Snapshot()))
    {
      ghost var u := Recorded(Snapshot(), p);
      Record(p);
      assert Snapshot() == u;
      if p.idx + 1 >= p.length {
        screen := Results;
      } else {
        NextObstacle();
      }
    }

    /** The callback's first effects: feedback cleared, latch released, `newResults` stored. */
    method Record(p: Feedback)
      modifies this`feedback, this`processing, this`pending, this`results, this`causes
      ensures feedback.None? && !processing && pending.None? && results == p.newResults
      ensures causes == old(causes) + [pendingCause]
    {
      feedback := None;
      processing := false;
      pending := None;
      results := p.newResults;
      causes := causes + [pendingCause];
    }

    /** On to the next obstacle: index up, presses reset, `startObstacleTimer()`. */
    method NextObstacle()
      modifies this`currentIdx, this`multiCount, this`timeRemaining, this`timerActive
      ensures currentIdx == old(currentIdx) + 1 && multiCount == 0
      ensures difficulty.None? ==> timeRemaining == old(timeRemaining) && timerActive == old(timerActive)
      ensures difficulty.Some? ==> timerActive && timeRemaining == difficulty.value.windowMs as int
    {
      currentIdx := currentIdx + 1;
      multiCount := 0;
      StartObstacleTimer();
    }

    /** `restart()`. */
    method Restart()
      requires Valid() && screen == Results
      modifies this
      ensures Valid()
      ensures Snapshot() == AgileForceEngine.Restart(old(Snapshot()))
    {
      RestartKeepsWellFormed(Snapshot());
      Stop();
      ClearCourse();
      ClearPlay();
    }

    /** The interval cleared, the latch released, the briefing screen shown. */
    method Stop()
      modifies this`timerActive, this`processing, this`screen
      ensures !timerActive && !processing && screen == Briefing
    {
      timerActive := false;
      processing := false;
      screen := Briefing;
    }

    /** `setDifficulty(null)`, `setObstacles([])`, `setCurrentIdx(0)`, `setResults([])`. */
    method ClearCourse()
      modifies this`difficulty, this`obstacles, this`currentIdx, this`results, this`causes
      ensures difficulty.None? && obstacles == [] && currentIdx == 0 && results == [] && causes == []
    {
      difficulty := None;
      obstacles := [];
      currentIdx := 0;
      results := [];
      causes := [];
    }

    /** `setCountdownValue(3)`, `setTimeRemaining(0)`, `setFeedback(null)`, `setMultiCount(0)`. */
    method ClearPlay()
      modifies this`countdownValue, this`timeRemaining, this`feedback, this`multiCount
      ensures countdownValue == CountdownStart as int && timeRemaining == 0 && feedback.None? && multiCount == 0
    {
      countdownValue := CountdownStart;
      timeRemaining := 0;
      feedback := None;
      multiCount := 0;
    }

    /** The grade shown on the results screen. */
    function Grade(): (g: string)
      reads this
      ensures difficulty.Some? ==> g == ComputeGrade(results, difficulty.value.id)
    {
      GradeOf(difficulty, results)
    }
  }

  /**
   * A key pressed while the clock shows 0 and the expiry effect has not yet
   * run: after the press, the effect and the feedback callback, exactly one
   * result has been recorded for the obstacle.
   */
  method PressRacesExpiry(e: Engine)
    requires e.Valid() && e.screen == Playing && !e.processing && e.timeRemaining == 0
    modifies e
    ensures e.Valid() && !e.processing
    ensures |e.results| == |old(e.results)| + 1 && e.results[..|old(e.results)|] == old(e.results)
  {
    ghost var s := e.Snapshot();
    AgileForceEngine.PressRacesExpiry(s);
    HandleExecuteKeepsWellFormed(s);
    ExpiryKeepsWellFormed(AgileForceEngine.HandleExecute(s));
    FeedbackDoneKeepsWellFormed(AgileForceEngine.ExpiryEffect(AgileForceEngine.HandleExecute(s)));
    e.HandleExecute();
    e.ExpiryEffect();
    e.FeedbackDone();
  }
}
