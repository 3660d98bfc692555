/**
 * OfficeOdyssey (src/app/officeodyssey/page.tsx): a narrated adventure
 * whose replies may end with an `[OUTCOME]…[/OUTCOME]` block. The pure
 * helpers (`parseOutcome`, `cleanText`, `formatTime`, `currentRoom`) are
 * functions; the component's counters and message lists are the fields of
 * `Game`, updated by one method per handler, reply and timer.
 */
module OfficeOdysseyPage {
  import opened Options
  import opened JsText
  import opened TaggedBlocks
  import opened ChatTranscript

  datatype Screen = Intro | Playing | Ended

  /** The ending the narrator reports; `ending` names one of "acceptance", "promotion", "printer". */
  datatype Outcome = Outcome(ending: string, line: string)

  const OutcomeOpen: string := "[OUTCOME]"
  const OutcomeClose: string := "[/OUTCOME]"

  /** The room shown in the header, by number of actions taken. */
  const RoomCycle: seq<string> := [
    "Conference Room B",
    "Conference Room B (Again)",
    "Conference Room B — Annex",
    "The 4th Floor",
    "Conference Room B — East Wing",
    "The Exit → Conference Room B",
    "Conference Room B (Sub-Level)",
    "The Server Closet → Conference Room B",
    "Conference Room B // Unknown",
    "The Lobby → Conference Room B",
    "Conference Room B — Restricted",
    "The Stairwell → 4th Floor"
  ]

  const BeginFailure: string := "Something went wrong. The building has declined to comment."
  const ActionFailure: string := "An error occurred."

  lemma OutcomeTagsBracketed()
    ensures BracketTags(OutcomeOpen, OutcomeClose)
  {
  }

  /**
   * `parseOutcome(text)`: no ending unless the text holds a block; otherwise
   * what `decode` (standing for `JSON.parse` inside `try`) makes of the first
   * block's contents, `None` when that parse fails.
   */
  function ParseOutcome(text: string, decode: string -> Option<Outcome>): Option<Outcome>
  {
    ParseTagged(text, OutcomeOpen, OutcomeClose, decode)
  }

  /** An ending comes only from a reply that holds a block. */
  lemma EndingNeedsBlock(text: string, decode: string -> Option<Outcome>)
    ensures FirstBlock(text, OutcomeOpen, OutcomeClose).None? ==> ParseOutcome(text, decode).None?
    ensures ParseOutcome(text, decode).Some? ==> FirstBlock(text, OutcomeOpen, OutcomeClose).Some?
  {
    ParseNeedsBlock(text, OutcomeOpen, OutcomeClose, decode);
  }

  /** `cleanText(text)`: every block removed, then trimmed. */
  function CleanText(text: string): string
  {
    Clean(text, OutcomeOpen, OutcomeClose)
  }

  /** The cleaned text is trimmed, and a reply without a block is only trimmed. */
  lemma CleanTextTrimmed(text: string)
    ensures IsTrimmed(CleanText(text))
    ensures FirstBlock(text, OutcomeOpen, OutcomeClose).None? ==> CleanText(text) == Trim(text)
  {
    CleanTrimmed(text, OutcomeOpen, OutcomeClose);
  }

  /** `clean || reply`: the text shown for a reply. */
  function DisplayedReply(reply: string): string
  {
    Displayed(reply, OutcomeOpen, OutcomeClose)
  }

  /** The cleaned text is shown when it is not empty, the raw reply otherwise; a non-empty reply never shows as "". */
  lemma ReplyFallback(reply: string)
    ensures CleanText(reply) != [] ==> DisplayedReply(reply) == CleanText(reply)
    ensures CleanText(reply) == [] ==> DisplayedReply(reply) == reply
    ensures reply != [] ==> DisplayedReply(reply) != []
  {
    DisplayedFallback(reply, OutcomeOpen, OutcomeClose);
  }

  /**
   * A reply written as prose and one outcome block: the ending is what the
   * block's contents decode to (so malformed contents give none), and when
   * nothing bracketed follows, the shown text is the prose and the tail, trimmed.
   */
  lemma ReadNarration(prose: string, body: string, rest: string, decode: string -> Option<Outcome>)
    requires NoBracket(prose) && NoBracket(body)
    ensures ParseOutcome(prose + OutcomeOpen + body + OutcomeClose + rest, decode) == decode(body)
    ensures NoBracket(rest) ==> CleanText(prose + OutcomeOpen + body + OutcomeClose + rest) == Trim(prose + rest)
  {
    OutcomeTagsBracketed();
    NarrationReply(prose, body, rest, OutcomeOpen, OutcomeClose, decode);
  }

  /**
   * A reply carrying two outcome blocks: the first one is decoded, and the
   * global replace removes both, so only the prose between them is shown.
   */
  lemma TwoOutcomeBlocks(p1: string, b1: string, p2: string, b2: string, p3: string, decode: string -> Option<Outcome>)
    requires NoBracket(p1) && NoBracket(b1) && NoBracket(p2) && NoBracket(b2) && NoBracket(p3)
    ensures var reply := p1 + OutcomeOpen + b1 + OutcomeClose + (p2 + OutcomeOpen + b2 + OutcomeClose + p3);
            ParseOutcome(reply, decode) == decode(b1) && CleanText(reply) == Trim(p1 + p2 + p3)
  {
    OutcomeTagsBracketed();
    var second := p2 + OutcomeOpen + b2 + OutcomeClose + p3;
    NarrationReply(p1, b1, second, OutcomeOpen, OutcomeClose, decode);
    CleanIsTrimOfStrip(p1 + OutcomeOpen + b1 + OutcomeClose + second, OutcomeOpen, OutcomeClose);
    StripTwoBlocks(p1, b1, p2, b2, p3, OutcomeOpen, OutcomeClose);
  }

  /** A reply with no bracket carries no ending and is shown trimmed. */
  lemma ReadPlainNarration(text: string, decode: string -> Option<Outcome>)
    requires NoBracket(text)
    ensures ParseOutcome(text, decode).None?
    ensures CleanText(text) == Trim(text)
  {
    OutcomeTagsBracketed();
    NoBracketNoBlock(text, OutcomeOpen, OutcomeClose);
  }

  /** A reply that is nothing but a block cleans to "", so the raw reply is shown. */
  lemma BareBlockShownRaw(body: string)
    requires NoBracket(body)
    ensures DisplayedReply(OutcomeOpen + body + OutcomeClose) == OutcomeOpen + body + OutcomeClose
  {
    var decode: string -> Option<Outcome> := _ => None;
    var reply, none := OutcomeOpen + body + OutcomeClose, "";
    assert reply == none + OutcomeOpen + body + OutcomeClose + none;
    ReadNarration(none, body, none, decode);
    assert none + none == none;
    assert CleanText(reply) == [];
  }

  /** `formatTime(seconds)`: minutes and seconds, each padded to two digits, joined by ':'. */
  function FormatTime(seconds: nat): (r: string)
  {
    Clock(seconds / 60, seconds % 60)
  }

  /** The face for `minutes` and `secs`. */
  function Clock(minutes: nat, secs: nat): string
  {
    PadStart(Decimal(minutes), 2, '0') + ":" + PadStart(Decimal(secs), 2, '0')
  }

  /** Reading a clock face back: the digits before the ':' and the two after it. */
  function ReadClock(r: string): (t: Option<(nat, nat)>)
    ensures t.Some? ==> |r| >= 5 && r[|r| - 3] == ':'
  {
    if |r| >= 5 && r[|r| - 3] == ':' && AllDigits(r[..|r| - 3]) && AllDigits(r[|r| - 2..])
    then Some((ReadDecimal(r[..|r| - 3]), ReadDecimal(r[|r| - 2..])))
    else None
  }

  /**
   * The clock face reads back as the minutes and the seconds of `seconds`:
   * the seconds field is below 60 and the two fields add back up to `seconds`.
   */
  lemma FormatTimeRoundTrip(seconds: nat)
    ensures ReadClock(FormatTime(seconds)) == Some((seconds / 60, seconds % 60))
    ensures var t := ReadClock(FormatTime(seconds)).value;
            t.1 < 60 && t.0 * 60 + t.1 == seconds
  {
    MinutesAndSeconds(seconds);
    ClockRoundTrip(seconds / 60, seconds % 60);
  }

  lemma MinutesAndSeconds(seconds: nat)
    ensures seconds % 60 < 60 && seconds / 60 * 60 + seconds % 60 == seconds
  {
  }

  /** A face with a seconds field below 100 reads back as its two fields. */
  lemma ClockRoundTrip(minutes: nat, secs: nat)
    requires secs < 100
    ensures ReadClock(Clock(minutes, secs)) == Some((minutes, secs))
  {
    DecimalLength(secs);
    PaddedDecimal(minutes, 2);
    PaddedDecimal(secs, 2);
    ReadClockOf(PadStart(Decimal(minutes), 2, '0'), PadStart(Decimal(secs), 2, '0'), minutes, secs);
  }

  /** A face `mm:ss` whose fields are numerals for `m` and `s` reads back as `(m, s)`. */
  lemma ReadClockOf(mm: string, ss: string, m: nat, s: nat)
    requires |mm| >= 2 && |ss| == 2 && AllDigits(mm) && AllDigits(ss)
    requires ReadDecimal(mm) == m && ReadDecimal(ss) == s
    ensures ReadClock(mm + ":" + ss) == Some((m, s))
  {
    ClockLayout(mm, ss);
  }

  /** A face `mm:ss` with a two-character seconds field: the ':' sits third from the end. */
  lemma ClockLayout(mm: string, ss: string)
    requires |mm| >= 2 && |ss| == 2
    ensures var r := mm + ":" + ss;
            && |r| >= 5 && r[|r| - 3] == ':'
            && r[..|r| - 3] == mm && r[|r| - 2..] == ss
  {
    var r := mm + ":" + ss;
    assert r[..|r| - 3] == mm;
    assert r[|r| - 2..] == ss;
  }

  /** Different times never show the same face. */
  lemma FormatTimeInjective(a: nat, b: nat)
    requires FormatTime(a) == FormatTime(b)
    ensures a == b
  {
    FormatTimeRoundTrip(a);
    FormatTimeRoundTrip(b);
  }

  /** Below 100 minutes the face is always `mm:ss`. */
  lemma FormatTimeWidth(seconds: nat)
    requires seconds < 6000
    ensures |FormatTime(seconds)| == 5
  {
    DecimalLength(seconds / 60);
    DecimalLength(seconds % 60);
  }

  /** `ROOM_CYCLE[actionCount % ROOM_CYCLE.length]`. */
  function RoomAt(actionCount: nat): string
  {
    RoomCycle[actionCount % |RoomCycle|]
  }

  /** The room shown is always one of the cycle's. */
  lemma RoomInCycle(actionCount: nat)
    ensures RoomAt(actionCount) in RoomCycle
  {
  }

  /** The rooms repeat every twelve actions. */
  lemma RoomPeriodic(actionCount: nat)
    ensures RoomAt(actionCount + |RoomCycle|) == RoomAt(actionCount)
  {
    assert |RoomCycle| == 12;
    assert (actionCount + 12) % 12 == actionCount % 12;
  }

  /** No room name appears twice in the cycle. */
  lemma RoomsDistinct()
    ensures forall i, j :: 0 <= i < j < |RoomCycle| ==> RoomCycle[i] != RoomCycle[j]
  {
  }

  /** Two action counts show the same room exactly when they agree modulo twelve. */
  lemma SameRoom(a: nat, b: nat)
    ensures RoomAt(a) == RoomAt(b) <==> a % |RoomCycle| == b % |RoomCycle|
  {
    RoomsDistinct();
    var i, j := a % |RoomCycle|, b % |RoomCycle|;
    if i < j {
      assert RoomCycle[i] != RoomCycle[j];
    } else if j < i {
      assert RoomCycle[j] != RoomCycle[i];
    }
  }

  /** What a reply reads as: the text shown and the ending it carries, or the error to show. */
  datatype Narration =
    | Narrated(shown: string, ending: Option<Outcome>)
    | NarrationFailed(error: string)

  /**
   * What `beginAdventure()` makes of the first reply: the shown text is
   * `clean || reply` and the ending is `parseOutcome(reply)`; a failure
   * shows the stock message whatever was thrown.
   */
  function ReadFirstReply(reply: Reply, decode: string -> Option<Outcome>): (n: Narration)
    ensures n.Narrated? <==> reply.Content?
    ensures n.Narrated? ==> n.shown == DisplayedReply(reply.text) && n.ending == ParseOutcome(reply.text, decode)
    ensures n.NarrationFailed? ==> n.error == BeginFailure
  {
    match reply
    case Content(text) => Narrated(DisplayedReply(text), ParseOutcome(text, decode))
    case Failed(_) => NarrationFailed(BeginFailure)
  }

  /**
   * What `submitAction()` makes of a reply: as for the first reply, except
   * that a failure shows the thrown error's message, or a stock one when
   * it has none.
   */
  function ReadActionReply(reply: Reply, decode: string -> Option<Outcome>): (n: Narration)
    ensures n.Narrated? <==> reply.Content?
    ensures n.Narrated? ==> n.shown == DisplayedReply(reply.text) && n.ending == ParseOutcome(reply.text, decode)
    ensures n.NarrationFailed? ==> n.error != []
    ensures n.NarrationFailed? ==> n.error == if reply.message != [] then reply.message else ActionFailure
  {
    match reply
    case Content(text) => Narrated(DisplayedReply(text), ParseOutcome(text, decode))
    case Failed(message) => NarrationFailed(if message != [] then message else ActionFailure)
  }

  /** A non-empty reply is never shown blank, and a reply without a block never ends the game. */
  lemma NarratedText(reply: Reply, decode: string -> Option<Outcome>)
    requires reply.Content?
    ensures reply.text != [] ==> ReadActionReply(reply, decode).shown != []
    ensures FirstBlock(reply.text, OutcomeOpen, OutcomeClose).None? ==> ReadActionReply(reply, decode).ending.None?
  {
    ReplyFallback(reply.text);
    EndingNeedsBlock(reply.text, decode);
  }

  class Game {
    var screen: Screen
    var messages: seq<Message>
    var history: seq<Message>
    var input: string
    var isWaiting: bool
    var actionCount: nat
    var timeInOffice: nat
    var outcome: Option<Outcome>
    var error: string
    /** The 1200 ms timeout that shows the ending, while it is scheduled. */
    var endingDue: Option<Outcome>

    /** The transcript shown is the history sent to the narrator, and the player's turns are trimmed. */
    ghost predicate Valid()
      reads this
    {
      messages == history && UserTurnsTrimmed(history)
    }

    /** The component as it first renders. */
    constructor()
      ensures Valid()
      ensures screen == Intro && messages == [] && history == [] && input == [] && !isWaiting
      ensures actionCount == 0 && timeInOffice == 0 && outcome.None? && error == [] && endingDue.None?
    {
      screen := Intro;
      messages := [];
      history := [];
      input := [];
      isWaiting := false;
      actionCount := 0;
      timeInOffice := 0;
      outcome := None;
      error := [];
      endingDue := None;
    }

    /** The text shown for `actionCount`. */
    function CurrentRoom(): (r: string)
      reads this
      ensures r == RoomAt(actionCount)
    {
      RoomCycle[actionCount % |RoomCycle|]
    }

    /** The one-second interval that runs while the screen is "playing". */
    method ClockTick()
      modifies this`timeInOffice
      ensures timeInOffice == if screen == Playing then old(timeInOffice) + 1 else old(timeInOffice)
    {
      if screen == Playing {
        timeInOffice := timeInOffice + 1;
      }
    }

    /** The text area's `onChange`. */
    method SetInput(text: string)
      modifies this`input
      ensures input == text
    {
      input := text;
    }

    /** `beginAdventure()` up to its call to the narration service. */
    method BeginAdventure()
      modifies this`screen, this`isWaiting, this`error
      ensures screen == Playing && isWaiting && error == []
    {
      screen := Playing;
      isWaiting := true;
      error := [];
    }

    /** The rest of `beginAdventure()`, given what the first reply reads as. */
    method AdventureReply(n: Narration)
      requires Valid()
      modifies this`history, this`messages, this`outcome, this`screen, this`error, this`isWaiting
      ensures Valid() && !isWaiting
      ensures n.Narrated? ==> history == [Message(Assistant, n.shown)] && error == old(error)
      ensures n.Narrated? && n.ending.Some? ==> outcome == n.ending && screen == Ended
      ensures n.Narrated? && n.ending.None? ==> outcome == old(outcome) && screen == old(screen)
      ensures n.NarrationFailed? ==>
                && error == n.error && history == old(history)
                && outcome == old(outcome) && screen == old(screen)
    {
      match n {
        case Narrated(shown, ending) =>
          ShowOnly(Message(Assistant, shown));
          TakeEnding(ending);
        case NarrationFailed(e) =>
          error := e;
      }
      isWaiting := false;
    }

    /** The transcript replaced by the one assistant turn `msg`. */
    method ShowOnly(msg: Message)
      requires msg.role == Assistant
      modifies this`history, this`messages
      ensures Valid() && history == [msg]
    {
      history := [msg];
      messages := [msg];
    }

    /** The ending shown at once when there is one. */
    method TakeEnding(o: Option<Outcome>)
      modifies this`outcome, this`screen
      ensures o.Some? ==> outcome == o && screen == Ended
      ensures o.None? ==> outcome == old(outcome) && screen == old(screen)
    {
      if o.Some? {
        outcome := o;
        screen := Ended;
      }
    }

    /**
     * `submitAction()` up to its call to the narration service: nothing
     * happens for blank input or while waiting; otherwise the trimmed input
     * is sent, shown, and counted as an action.
     */
    method SubmitAction() returns (sent: bool)
      requires Valid()
      modifies this`input, this`error, this`history, this`messages, this`isWaiting, this`actionCount
      ensures Valid()
      ensures sent <==> Trim(old(input)) != [] && !old(isWaiting)
      ensures !sent ==>
                && input == old(input) && error == old(error) && history == old(history)
                && isWaiting == old(isWaiting) && actionCount == old(actionCount)
      ensures sent ==>
                && input == [] && error == [] && isWaiting && actionCount == old(actionCount) + 1
                && history == old(history) + [Message(User, Trim(old(input)))]
    {
      var text := Trim(input);
      if text == [] || isWaiting {
        return false;
      }
      input := [];
      error := [];
      var userMsg := Message(User, text);
      UserTurnsAppend(history, userMsg);
      history := history + [userMsg];
      messages := messages + [userMsg];
      isWaiting := true;
      actionCount := actionCount + 1;
      return true;
    }

    /**
     * The rest of `submitAction()`, given what the reply reads as: the text
     * shown and added to the history, and the ending scheduled when it
     * carries one; or the error shown.
     */
    method ActionReply(n: Narration)
      requires Valid()
      modifies this`history, this`messages, this`endingDue, this`error, this`isWaiting
      ensures Valid() && !isWaiting
      ensures n.Narrated? ==>
                && history == old(history) + [Message(Assistant, n.shown)]
                && error == old(error)
                && endingDue == if n.ending.Some? then n.ending else old(endingDue)
      ensures n.NarrationFailed? ==>
                && error == n.error && history == old(history) && endingDue == old(endingDue)
    {
      match n {
        case Narrated(shown, ending) =>
          Append(Message(Assistant, shown));
          ScheduleEnding(ending);
        case NarrationFailed(e) =>
          error := e;
      }
      isWaiting := false;
    }

    /** The assistant turn `msg` added to the transcript and the history. */
    method Append(msg: Message)
      requires Valid() && msg.role == Assistant
      modifies this`history, this`messages
      ensures Valid() && history == old(history) + [msg]
    {
      UserTurnsAppend(history, msg);
      history := history + [msg];
      messages := messages + [msg];
    }

    /** The 1200 ms ending timeout set when there is an ending. */
    method ScheduleEnding(o: Option<Outcome>)
      modifies this`endingDue
      ensures endingDue == if o.Some? then o else old(endingDue)
    {
      if o.Some? {
        endingDue := o;
      }
    }

    /** The 1200 ms timeout: the ending shown. */
    method EndingTimer()
      modifies this`outcome, this`screen, this`endingDue
      ensures endingDue.None?
      ensures old(endingDue).Some? ==> outcome == old(endingDue) && screen == Ended
      ensures old(endingDue).None? ==> outcome == old(outcome) && screen == old(screen)
    {
      if endingDue.Some? {
        outcome := endingDue;
        screen := Ended;
        endingDue := None;
      }
    }

    /** `restart()`: every field back to its first value; a scheduled ending is not cancelled. */
    method Restart()
      modifies this`screen, this`messages, this`history, this`input, this`isWaiting,
               this`actionCount, this`timeInOffice, this`outcome, this`error
      ensures Valid()
      ensures screen == Intro && messages == [] && history == [] && input == [] && !isWaiting
      ensures actionCount == 0 && timeInOffice == 0 && outcome.None? && error == []
    {
      screen := Intro;
      messages := [];
      history := [];
      input := [];
      isWaiting := false;
      actionCount := 0;
      timeInOffice := 0;
      outcome := None;
      error := [];
    }
  }
}
