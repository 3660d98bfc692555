/**
 * NPCDetect (src/app/npcdetect/page.tsx): an interview by the HR-9 unit
 * whose last reply carries a `[VERDICT]…[/VERDICT]` block. The pure helpers
 * (`parseVerdict`, `cleanText`, `getColorClass`, the progress label) are
 * functions; the component's screen, question counter and message lists
 * are the fields of `Interview`, updated by one method per handler, reply
 * and timer.
 */
module NpcDetectPage {
  import opened Options
  import opened JsText
  import opened TaggedBlocks
  import opened ChatTranscript

  datatype Screen = BootScreen | InterviewScreen | VerdictScreen

  /** The verdict the interviewer reports; `score` runs from 0 to 100. */
  datatype Verdict = Verdict(score: real, classification: string, stamp: string, title: string, findings: string)

  const VerdictOpen: string := "[VERDICT]"
  const VerdictClose: string := "[/VERDICT]"

  /** `MAX_QUESTIONS`: the length of the interview the progress bar shows. */
  const MaxQuestions: nat := 7

  /** The boot log's six lines, none of them done yet. */
  const BootLinesPending: seq<bool> := [false, false, false, false, false, false]

  /** The delay before the verdict shows when the reply also carried a closing line, and when it did not. */
  const SpokenVerdictDelay: nat := 1800
  const SilentVerdictDelay: nat := 400

  const InterviewFailure: string := "Connection issue. HR-9 is experiencing technical difficulties."
  const AnswerFailure: string := "Something went wrong."

  lemma VerdictTagsBracketed()
    ensures BracketTags(VerdictOpen, VerdictClose)
  {
  }

  /**
   * `parseVerdict(text)`: no verdict unless the text holds a block; otherwise
   * what `decode` (standing for `JSON.parse` inside `try`) makes of the first
   * block's contents, `None` when that parse fails.
   */
  function ParseVerdict(text: string, decode: string -> Option<Verdict>): Option<Verdict>
  {
    ParseTagged(text, VerdictOpen, VerdictClose, decode)
  }

  /** A verdict comes only from a reply that holds a block. */
  lemma VerdictNeedsBlock(text: string, decode: string -> Option<Verdict>)
    ensures FirstBlock(text, VerdictOpen, VerdictClose).None? ==> ParseVerdict(text, decode).None?
    ensures ParseVerdict(text, decode).Some? ==> FirstBlock(text, VerdictOpen, VerdictClose).Some?
  {
    ParseNeedsBlock(text, VerdictOpen, VerdictClose, decode);
  }

  /** `cleanText(text)`: every block removed, then trimmed. */
  function CleanText(text: string): string
  {
    Clean(text, VerdictOpen, VerdictClose)
  }

  /** The cleaned text is trimmed, and a reply without a block is only trimmed. */
  lemma CleanTextTrimmed(text: string)
    ensures IsTrimmed(CleanText(text))
    ensures FirstBlock(text, VerdictOpen, VerdictClose).None? ==> CleanText(text) == Trim(text)
  {
    CleanTrimmed(text, VerdictOpen, VerdictClose);
  }

  /** `clean || reply`: the text shown for an answer's reply. */
  function DisplayedReply(reply: string): string
  {
    Displayed(reply, VerdictOpen, VerdictClose)
  }

  /** The cleaned text is shown when it is not empty, the raw reply otherwise; a non-empty reply never shows as "". */
  lemma ReplyFallback(reply: string)
    ensures CleanText(reply) != [] ==> DisplayedReply(reply) == CleanText(reply)
    ensures CleanText(reply) == [] ==> DisplayedReply(reply) == reply
    ensures reply != [] ==> DisplayedReply(reply) != []
  {
    DisplayedFallback(reply, VerdictOpen, VerdictClose);
  }

  /**
   * A closing reply written as prose and one verdict block: the verdict is
   * what the block's contents decode to (so malformed contents give none),
   * and when nothing bracketed follows, the closing line is the prose and
   * the tail, trimmed.
   */
  lemma ReadClosingReply(prose: string, body: string, rest: string, decode: string -> Option<Verdict>)
    requires NoBracket(prose) && NoBracket(body)
    ensures ParseVerdict(prose + VerdictOpen + body + VerdictClose + rest, decode) == decode(body)
    ensures NoBracket(rest) ==> CleanText(prose + VerdictOpen + body + VerdictClose + rest) == Trim(prose + rest)
  {
    VerdictTagsBracketed();
    NarrationReply(prose, body, rest, VerdictOpen, VerdictClose, decode);
  }

  /**
   * A reply carrying two verdict blocks: the first one is decoded, and the
   * global replace removes both, so only the prose between them is shown.
   */
  lemma TwoVerdictBlocks(p1: string, b1: string, p2: string, b2: string, p3: string, decode: string -> Option<Verdict>)
    requires NoBracket(p1) && NoBracket(b1) && NoBracket(p2) && NoBracket(b2) && NoBracket(p3)
    ensures var reply := p1 + VerdictOpen + b1 + VerdictClose + (p2 + VerdictOpen + b2 + VerdictClose + p3);
            ParseVerdict(reply, decode) == decode(b1) && CleanText(reply) == Trim(p1 + p2 + p3)
  {
    VerdictTagsBracketed();
    var second := p2 + VerdictOpen + b2 + VerdictClose + p3;
    NarrationReply(p1, b1, second, VerdictOpen, VerdictClose, decode);
    CleanIsTrimOfStrip(p1 + VerdictOpen + b1 + VerdictClose + second, VerdictOpen, VerdictClose);
    StripTwoBlocks(p1, b1, p2, b2, p3, VerdictOpen, VerdictClose);
  }

  /** A question with no bracket in it carries no verdict and is shown trimmed. */
  lemma ReadQuestion(text: string, decode: string -> Option<Verdict>)
    requires NoBracket(text)
    ensures ParseVerdict(text, decode).None?
    ensures CleanText(text) == Trim(text)
  {
    VerdictTagsBracketed();
    NoBracketNoBlock(text, VerdictOpen, VerdictClose);
  }

  /**
   * `getColorClass(score)`: "human" up to 30, "npc" from 61, "inconclusive"
   * strictly between.
   */
  function GetColorClass(score: real): (c: string)
    ensures c == "human" <==> score <= 30.0
    ensures c == "npc" <==> score >= 61.0
    ensures c == "inconclusive" <==> 30.0 < score < 61.0
  {
    if score <= 30.0 then "human"
    else if score >= 61.0 then "npc"
    else "inconclusive"
  }

  /** Where a class sits on the scale from human to NPC. */
  function ColorRank(c: string): nat
  {
    if c == "human" then 0 else if c == "inconclusive" then 1 else 2
  }

  /** Every score gets exactly one of the three classes. */
  lemma ColorClassesPartition(score: real)
    ensures GetColorClass(score) in {"human", "inconclusive", "npc"}
    ensures GetColorClass(score) == "human" || GetColorClass(score) == "inconclusive" || GetColorClass(score) == "npc"
  {
  }

  /** A higher score never gets a class nearer to human. */
  lemma ColorMonotone(a: real, b: real)
    requires a <= b
    ensures ColorRank(GetColorClass(a)) <= ColorRank(GetColorClass(b))
  {
  }

  /** `Math.min(questionCount, MAX_QUESTIONS)`: the question number the progress label shows. */
  function ProgressLabel(questionCount: nat): (shown: nat)
    ensures shown <= MaxQuestions && shown <= questionCount
    ensures questionCount <= MaxQuestions ==> shown == questionCount
    ensures questionCount >= MaxQuestions ==> shown == MaxQuestions
  {
    if questionCount < MaxQuestions then questionCount else MaxQuestions
  }

  /** The label never goes back as the interview goes on. */
  lemma ProgressMonotone(a: nat, b: nat)
    requires a <= b
    ensures ProgressLabel(a) <= ProgressLabel(b)
  {
  }

  /** What `beginInterview()` makes of the service's first answer. */
  datatype Opening =
    | OpeningVerdict(verdict: Verdict)
    | OpeningQuestion(text: string)
    | OpeningFailed

  /**
   * A verdict straight away when the reply holds one that decodes; the raw
   * reply as the first question otherwise; a failure when the call threw.
   */
  function ReadOpening(reply: Reply, decode: string -> Option<Verdict>): (o: Opening)
    ensures o.OpeningVerdict? <==> reply.Content? && ParseVerdict(reply.text, decode).Some?
    ensures o.OpeningVerdict? ==> ParseVerdict(reply.text, decode) == Some(o.verdict)
    ensures o.OpeningQuestion? ==> reply == Content(o.text)
    ensures o.OpeningFailed? <==> reply.Failed?
  {
    match reply
    case Failed(_) => OpeningFailed
    case Content(text) =>
      match ParseVerdict(text, decode)
      case Some(v) => OpeningVerdict(v)
      case None => OpeningQuestion(text)
  }

  /** What `submitAnswer()` makes of the service's reply to an answer. */
  datatype Answer =
    | VerdictDue(verdict: Verdict, closing: string)
    | FollowUp(shown: string)
    | AnswerFailed(error: string)

  /**
   * A verdict, with the cleaned text as its closing line, when the reply
   * holds one that decodes; otherwise the next question, shown as
   * `clean || reply`; when the call threw, its message or a stock one.
   */
  function ReadAnswer(reply: Reply, decode: string -> Option<Verdict>): (a: Answer)
    ensures a.VerdictDue? <==> reply.Content? && ParseVerdict(reply.text, decode).Some?
    ensures a.VerdictDue? ==> ParseVerdict(reply.text, decode) == Some(a.verdict) && a.closing == CleanText(reply.text)
    ensures a.FollowUp? ==> reply.Content? && a.shown == DisplayedReply(reply.text)
    ensures a.AnswerFailed? <==> reply.Failed?
    ensures a.AnswerFailed? ==> a.error != []
    ensures a.AnswerFailed? ==> a.error == if reply.message != [] then reply.message else AnswerFailure
  {
    match reply
    case Failed(message) => AnswerFailed(if message != [] then message else AnswerFailure)
    case Content(text) =>
      match ParseVerdict(text, decode)
      case Some(v) => VerdictDue(v, CleanText(text))
      case None => FollowUp(DisplayedReply(text))
  }

  /** A closing line is trimmed, and a question read from a non-empty reply is never blank. */
  lemma AnswerShownText(reply: Reply, decode: string -> Option<Verdict>)
    ensures ReadAnswer(reply, decode).VerdictDue? ==> IsTrimmed(ReadAnswer(reply, decode).closing)
    ensures ReadAnswer(reply, decode).FollowUp? && reply.text != [] ==> ReadAnswer(reply, decode).shown != []
  {
    if reply.Content? {
      CleanTextTrimmed(reply.text);
      ReplyFallback(reply.text);
    }
  }

  class Interview {
    var screen: Screen
    var bootDone: bool
    var bootLines: seq<bool>
    var messages: seq<Message>
    var history: seq<Message>
    var input: string
    var isWaiting: bool
    var questionCount: nat
    var verdict: Option<Verdict>
    var animatedScore: int
    var error: string
    /** The timeout that shows the verdict, while it is scheduled, and its delay in milliseconds. */
    var verdictDue: Option<Verdict>
    var verdictDelay: nat

    /** The counter is the number of questions in the history, and the subject's turns are trimmed. */
    ghost predicate Valid()
      reads this
    {
      questionCount == AssistantTurns(history) && UserTurnsTrimmed(history)
    }

    /** The component as it first renders. */
    constructor()
      ensures Valid()
      ensures screen == BootScreen && !bootDone && bootLines == BootLinesPending
      ensures messages == [] && history == [] && input == [] && !isWaiting
      ensures questionCount == 0 && verdict.None? && animatedScore == 0 && error == []
      ensures verdictDue.None?
    {
      screen := BootScreen;
      bootDone := false;
      bootLines := BootLinesPending;
      messages := [];
      history := [];
      input := [];
      isWaiting := false;
      questionCount := 0;
      verdict := None;
      animatedScore := 0;
      error := [];
      verdictDue := None;
      verdictDelay := 0;
    }

    /** The text area's `onChange`. */
    method SetInput(text: string)
      modifies this`input
      ensures input == text
    {
      input := text;
    }

    /** `beginInterview()` up to its call to the interview service. */
    method BeginInterview()
      modifies this`screen, this`isWaiting
      ensures screen == InterviewScreen && isWaiting
    {
      screen := InterviewScreen;
      isWaiting := true;
    }

    /**
     * The rest of `beginInterview()`, given what the first reply reads as: a
     * verdict is shown at once (and the waiting flag is left set); a question
     * becomes the whole transcript and the counter is 1; a failure shows the
     * connection message.
     */
    method InterviewReply(opening: Opening)
      requires Valid()
      modifies this`history, this`messages, this`questionCount, this`verdict, this`screen,
               this`error, this`isWaiting
      ensures Valid()
      ensures opening.OpeningVerdict? ==>
                && verdict == Some(opening.verdict) && screen == VerdictScreen
                && isWaiting == old(isWaiting) && error == old(error)
                && history == old(history) && messages == old(messages) && questionCount == old(questionCount)
      ensures opening.OpeningQuestion? ==>
                && history == [Message(Assistant, opening.text)] && messages == history
                && questionCount == 1 && !isWaiting && error == old(error)
                && verdict == old(verdict) && screen == old(screen)
      ensures opening.OpeningFailed? ==>
                && error == InterviewFailure && !isWaiting
                && history == old(history) && messages == old(messages) && questionCount == old(questionCount)
                && verdict == old(verdict) && screen == old(screen)
    {
      match opening {
        case OpeningVerdict(v) =>
          ShowVerdict(Some(v));
          return;
        case OpeningQuestion(text) =>
          FirstQuestion(Message(Assistant, text));
        case OpeningFailed =>
          error := InterviewFailure;
      }
      isWaiting := false;
    }

    /** The verdict shown. */
    method ShowVerdict(v: Option<Verdict>)
      modifies this`verdict, this`screen
      ensures verdict == v && screen == VerdictScreen
    {
      verdict := v;
      screen := VerdictScreen;
    }

    /** The first question as the whole transcript, counted as question 1. */
    method FirstQuestion(msg: Message)
      requires msg.role == Assistant
      modifies this`history, this`messages, this`questionCount
      ensures Valid()
      ensures history == [msg] && messages == [msg] && questionCount == 1
    {
      AssistantTurnsAppend([], msg);
      assert [] + [msg] == [msg];
      history := [msg];
      messages := [msg];
      questionCount := 1;
    }

    /**
     * `submitAnswer()` up to its call to the interview service: nothing
     * happens for blank input or while waiting; otherwise the trimmed
     * answer is sent and shown.
     */
    method SubmitAnswer() returns (sent: bool)
      requires Valid()
      modifies this`input, this`error, this`history, this`messages, this`isWaiting
      ensures Valid()
      ensures sent <==> Trim(old(input)) != [] && !old(isWaiting)
      ensures !sent ==>
                && input == old(input) && error == old(error) && history == old(history)
                && messages == old(messages) && isWaiting == old(isWaiting)
      ensures sent ==>
                && input == [] && error == [] && isWaiting
                && history == old(history) + [Message(User, Trim(old(input)))]
                && messages == old(messages) + [Message(User, Trim(old(input)))]
    {
      var text := Trim(input);
      if text == [] || isWaiting {
        return false;
      }
      input := [];
      error := [];
      AddAnswer(Message(User, text));
      isWaiting := true;
      return true;
    }

    /** The subject's answer added to both lists; it is not a question, so the counter stays. */
    method AddAnswer(msg: Message)
      requires Valid() && msg.role == User && msg.content != [] && IsTrimmed(msg.content)
      modifies this`history, this`messages
      ensures Valid()
      ensures history == old(history) + [msg] && messages == old(messages) + [msg]
    {
      UserTurnsAppend(history, msg);
      AssistantTurnsAppend(history, msg);
      history := history + [msg];
      messages := messages + [msg];
    }

    /**
     * The rest of `submitAnswer()`, given what the reply reads as. A verdict
     * is scheduled (1800 ms when a closing line is shown first, 400 ms when
     * there is none) and the waiting flag stays set; a question is added to
     * both lists and counted; a failure shows its error.
     */
    method AnswerReply(answer: Answer)
      requires Valid()
      modifies this`history, this`messages, this`questionCount, this`verdictDue, this`verdictDelay,
               this`error, this`isWaiting
      ensures Valid()
      ensures answer.VerdictDue? ==>
                && verdictDue == Some(answer.verdict)
                && verdictDelay == (if answer.closing != [] then SpokenVerdictDelay else SilentVerdictDelay)
                && messages == old(messages) + (if answer.closing != [] then [Message(Assistant, answer.closing)] else [])
                && history == old(history) && questionCount == old(questionCount)
                && isWaiting == old(isWaiting) && error == old(error)
      ensures answer.FollowUp? ==>
                && history == old(history) + [Message(Assistant, answer.shown)]
                && messages == old(messages) + [Message(Assistant, answer.shown)]
                && questionCount == old(questionCount) + 1 && !isWaiting
                && verdictDue == old(verdictDue) && verdictDelay == old(verdictDelay) && error == old(error)
      ensures answer.AnswerFailed? ==>
                && error == answer.error && !isWaiting
                && history == old(history) && messages == old(messages) && questionCount == old(questionCount)
                && verdictDue == old(verdictDue) && verdictDelay == old(verdictDelay)
    {
      match answer {
        case VerdictDue(v, closing) =>
          ScheduleVerdict(Some(v), closing);
          return;
        case FollowUp(shown) =>
          NextQuestion(Message(Assistant, shown));
        case AnswerFailed(e) =>
          error := e;
      }
      isWaiting := false;
    }

    /**
     * The closing line shown when there is one (`clean || reply` is `clean`
     * then), and the verdict's timeout set.
     */
    method ScheduleVerdict(v: Option<Verdict>, closing: string)
      modifies this`messages, this`verdictDue, this`verdictDelay
      ensures verdictDue == v
      ensures verdictDelay == if closing != [] then SpokenVerdictDelay else SilentVerdictDelay
      ensures messages == old(messages) + (if closing != [] then [Message(Assistant, closing)] else [])
    {
      if closing != [] {
        messages := messages + [Message(Assistant, closing)];
      } else {
        assert messages + [] == messages;
      }
      verdictDue := v;
      verdictDelay := if closing != [] then SpokenVerdictDelay else SilentVerdictDelay;
    }

    /** A question added to both lists and counted. */
    method NextQuestion(msg: Message)
      requires Valid() && msg.role == Assistant
      modifies this`history, this`messages, this`questionCount
      ensures Valid()
      ensures history == old(history) + [msg] && messages == old(messages) + [msg]
      ensures questionCount == old(questionCount) + 1
    {
      UserTurnsAppend(history, msg);
      AssistantTurnsAppend(history, msg);
      history := history + [msg];
      messages := messages + [msg];
      questionCount := questionCount + 1;
    }

    /** The verdict's timeout: the verdict shown. */
    method VerdictTimer()
      modifies this`verdict, this`screen, this`verdictDue
      ensures verdictDue.None?
      ensures old(verdictDue).Some? ==> verdict == old(verdictDue) && screen == VerdictScreen
      ensures old(verdictDue).None? ==> verdict == old(verdict) && screen == old(screen)
    {
      if verdictDue.Some? {
        verdict := verdictDue;
        screen := VerdictScreen;
        verdictDue := None;
      }
    }

    /** `restart()`: every field back to its first value; a scheduled verdict is not cancelled. */
    method Restart()
      modifies this`screen, this`bootDone, this`bootLines, this`messages, this`history, this`input,
               this`isWaiting, this`questionCount, this`verdict, this`animatedScore, this`error
      ensures Valid()
      ensures screen == BootScreen && !bootDone && bootLines == BootLinesPending
      ensures messages == [] && history == [] && input == [] && !isWaiting
      ensures questionCount == 0 && verdict.None? && animatedScore == 0 && error == []
    {
      screen := BootScreen;
      bootDone := false;
      bootLines := BootLinesPending;
      ClearTranscript();
      input := [];
      isWaiting := false;
      verdict := None;
      animatedScore := 0;
      error := [];
    }

    /** Both lists emptied and the counter back to 0. */
    method ClearTranscript()
      modifies this`history, this`messages, this`questionCount
      ensures Valid()
      ensures history == [] && messages == [] && questionCount == 0
    {
      history := [];
      messages := [];
      questionCount := 0;
    }
  }
}
