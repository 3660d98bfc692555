/**
 * The tagged-block helpers both chat pages use on a narration reply: the
 * regular expression `\[TAG\]([\s\S]*?)\[\/TAG\]` is written out as a substring
 * search (the leftmost position where an opening tag is followed, somewhere,
 * by a closing tag; then the nearest closing tag after it), its global
 * replacement by "" followed by `trim`, and `JSON.parse` inside `try`, which
 * becomes a `decode` parameter returning `None` where the parse fails.
 */
module TaggedBlocks {
  import opened Options
  import opened JsText

  /** `pat` occurs in `text` starting at index `i`. */
  predicate OccursAt(text: string, pat: string, i: nat)
  {
    i + |pat| <= |text| && text[i..i + |pat|] == pat
  }

  /** The first index at or after `from` where `pat` occurs. */
  function FindFrom(text: string, pat: string, from: nat): (r: Option<nat>)
    ensures r.Some? ==> from <= r.value && OccursAt(text, pat, r.value)
    ensures r.Some? ==> forall k :: from <= k < r.value ==> !OccursAt(text, pat, k)
    ensures r.None? ==> forall k :: from <= k ==> !OccursAt(text, pat, k)
    decreases |text| - from
  {
    if from + |pat| > |text| then None
    else if OccursAt(text, pat, from) then Some(from)
    else FindFrom(text, pat, from + 1)
  }

  /**
   * A matched block: the opening tag spans `start..innerStart`, the captured
   * text `innerStart..innerEnd`, the closing tag `innerEnd..end`.
   */
  datatype Block = Block(start: nat, innerStart: nat, innerEnd: nat, end: nat)

  /** The regular expression can start a match at `q`: an opening tag there, a closing tag later. */
  predicate OpensBlock(text: string, open: string, close: string, q: nat)
  {
    OccursAt(text, open, q) && FindFrom(text, close, q + |open|).Some?
  }

  /** `b` is a match of the non-greedy pattern: tags in place and no closing tag inside. */
  predicate IsShortestBlock(text: string, open: string, close: string, b: Block)
  {
    && b.innerStart == b.start + |open|
    && b.innerStart <= b.innerEnd
    && b.end == b.innerEnd + |close|
    && OccursAt(text, open, b.start)
    && OccursAt(text, close, b.innerEnd)
    && (forall k :: b.innerStart <= k < b.innerEnd ==> !OccursAt(text, close, k))
  }

  /** The match the regular expression finds when it starts searching at `from`. */
  function BlockFrom(text: string, open: string, close: string, from: nat): (r: Option<Block>)
    requires |open| > 0
    ensures r.None? ==> forall q :: from <= q ==> !OpensBlock(text, open, close, q)
    ensures r.Some? ==> from <= r.value.start && IsShortestBlock(text, open, close, r.value)
    ensures r.Some? ==> OpensBlock(text, open, close, r.value.start)
    ensures r.Some? ==> forall q :: from <= q < r.value.start ==> !OpensBlock(text, open, close, q)
    decreases |text| - from
  {
    match FindFrom(text, open, from)
    case None => None
    case Some(s) =>
      match FindFrom(text, close, s + |open|)
      case Some(c) => Some(Block(s, s + |open|, c, c + |close|))
      case None =>
        BlockFrom(text, open, close, s + 1)
  }

  /** `text.match(re)`: the leftmost match, with the shortest captured text. */
  function FirstBlock(text: string, open: string, close: string): (r: Option<Block>)
    requires |open| > 0
    ensures r.None? <==> forall q :: 0 <= q ==> !OpensBlock(text, open, close, q)
    ensures r.Some? ==> IsShortestBlock(text, open, close, r.value)
    ensures r.Some? ==> OpensBlock(text, open, close, r.value.start)
    ensures r.Some? ==> forall q :: 0 <= q < r.value.start ==> !OpensBlock(text, open, close, q)
  {
    BlockFrom(text, open, close, 0)
  }

  /**
   * `match ? JSON.parse(match[1]) : null` inside `try`: the decoded text of
   * the first block, or `None` when there is no block or the decoder fails.
   */
  function ParseTagged<V>(text: string, open: string, close: string, decode: string -> Option<V>): Option<V>
    requires |open| > 0
  {
    match FirstBlock(text, open, close)
    case None => None
    case Some(b) => decode(text[b.innerStart..b.innerEnd])
  }

  /** A value comes only from a text that opens a block somewhere. */
  lemma ParseNeedsBlock<V>(text: string, open: string, close: string, decode: string -> Option<V>)
    requires |open| > 0
    ensures (forall q :: 0 <= q ==> !OpensBlock(text, open, close, q)) ==> ParseTagged(text, open, close, decode).None?
    ensures ParseTagged(text, open, close, decode).Some? ==> FirstBlock(text, open, close).Some?
  {
  }

  /** `text.replace(re /g, "")`: every match, left to right, replaced by nothing. */
  function StripBlocks(text: string, open: string, close: string): (r: string)
    requires |open| > 0
    ensures |r| <= |text|
    ensures FirstBlock(text, open, close).None? ==> r == text
    ensures FirstBlock(text, open, close).Some? ==>
              var b := FirstBlock(text, open, close).value;
              |r| + |open| + |close| <= |text| && b.start <= |r| && r[..b.start] == text[..b.start]
    decreases |text|
  {
    match FirstBlock(text, open, close)
    case None => text
    case Some(b) => text[..b.start] + StripBlocks(text[b.end..], open, close)
  }

  /** `cleanText`: strip every block, then trim. */
  function Clean(text: string, open: string, close: string): string
    requires |open| > 0
  {
    Trim(StripBlocks(text, open, close))
  }

  /** The cleaned text is trimmed; a text without a block is only trimmed. */
  lemma CleanTrimmed(text: string, open: string, close: string)
    requires |open| > 0
    ensures IsTrimmed(Clean(text, open, close))
    ensures FirstBlock(text, open, close).None? ==> Clean(text, open, close) == Trim(text)
  {
  }

  /** `clean || reply`: the cleaned text, or the raw reply when cleaning left nothing. */
  function Displayed(reply: string, open: string, close: string): string
    requires |open| > 0
  {
    var clean := Clean(reply, open, close);
    if clean != [] then clean else reply
  }

  /** The cleaned text when it is not empty, the raw reply otherwise: a non-empty reply never shows as "". */
  lemma DisplayedFallback(reply: string, open: string, close: string)
    requires |open| > 0
    ensures Clean(reply, open, close) != [] ==> Displayed(reply, open, close) == Clean(reply, open, close)
    ensures Clean(reply, open, close) == [] ==> Displayed(reply, open, close) == reply
    ensures reply != [] ==> Displayed(reply, open, close) != []
  {
  }

  /** Both tags open with a bracket that occurs nowhere else in them. */
  predicate BracketTags(open: string, close: string)
  {
    && |open| > 0 && |close| > 0
    && open[0] == '[' && close[0] == '['
  }

  /** No character of `s` can start a tag. */
  predicate NoBracket(s: string)
  {
    forall k :: 0 <= k < |s| ==> s[k] != '['
  }

  /** Where `text` has no bracket, no tag occurs. */
  lemma NoTagWhereNoBracket(text: string, pat: string, lo: nat, hi: nat)
    requires |pat| > 0 && pat[0] == '['
    requires forall k :: lo <= k < hi && k < |text| ==> text[k] != '['
    ensures forall k :: lo <= k < hi ==> !OccursAt(text, pat, k)
  {
    forall k | lo <= k < hi ensures !OccursAt(text, pat, k) {
      if OccursAt(text, pat, k) {
        assert false;
      }
    }
  }

  /** The search finds `at` when the pattern occurs there and nowhere before it. */
  lemma FindsAt(text: string, pat: string, from: nat, at: nat)
    requires from <= at && OccursAt(text, pat, at)
    requires forall k :: from <= k < at ==> !OccursAt(text, pat, k)
    ensures FindFrom(text, pat, from) == Some(at)
  {
  }

  /** A text with no bracket holds no block. */
  lemma NoBracketNoBlock(text: string, open: string, close: string)
    requires BracketTags(open, close) && NoBracket(text)
    ensures FirstBlock(text, open, close).None?
  {
    NoTagWhereNoBracket(text, open, 0, |text| + 1);
    assert forall q :: q > |text| ==> !OccursAt(text, open, q);
  }

  /** A block whose opening tag is the first bracket of the text, and whose closing tag is the next bracket after it, is the match. */
  lemma {:induction false} FirstBlockAt(text: string, open: string, close: string, s: nat, c: nat)
    requires BracketTags(open, close)
    requires s + |open| <= c && OccursAt(text, open, s) && OccursAt(text, close, c)
    requires forall k :: 0 <= k < s ==> text[k] != '['
    requires forall k :: s + |open| <= k < c ==> text[k] != '['
    ensures FirstBlock(text, open, close) == Some(Block(s, s + |open|, c, c + |close|))
  {
    FindsFirstBracketTag(text, open, 0, s);
    FindsFirstBracketTag(text, close, s + |open|, c);
    BlockOfSearches(text, open, close, 0, s, c);
  }

  /** The search for a bracket tag skips a bracket-free stretch and stops where the tag is. */
  lemma FindsFirstBracketTag(text: string, pat: string, from: nat, at: nat)
    requires |pat| > 0 && pat[0] == '['
    requires from <= at && OccursAt(text, pat, at)
    requires forall k :: from <= k < at ==> text[k] != '['
    ensures FindFrom(text, pat, from) == Some(at)
  {
    NoTagWhereNoBracket(text, pat, from, at);
    FindsAt(text, pat, from, at);
  }

  /** The match is assembled from the two searches. */
  lemma BlockOfSearches(text: string, open: string, close: string, from: nat, s: nat, c: nat)
    requires |open| > 0
    requires FindFrom(text, open, from) == Some(s)
    requires FindFrom(text, close, s + |open|) == Some(c)
    ensures BlockFrom(text, open, close, from) == Some(Block(s, s + |open|, c, c + |close|))
  {
  }

  /**
   * On a reply shaped as the narration service writes it (prose with no
   * bracket, then one block whose contents hold no bracket), the parse
   * decodes exactly the text between the tags.
   */
  lemma ParseBracketFreeReply<V>(text: string, open: string, close: string, s: nat, c: nat,
                                 decode: string -> Option<V>)
    requires BracketTags(open, close)
    requires s + |open| <= c && OccursAt(text, open, s) && OccursAt(text, close, c)
    requires forall k :: 0 <= k < s ==> text[k] != '['
    requires forall k :: s + |open| <= k < c ==> text[k] != '['
    ensures ParseTagged(text, open, close, decode) == decode(text[s + |open|..c])
  {
    FirstBlockAt(text, open, close, s, c);
    ParseOfBlock(text, open, close, Block(s, s + |open|, c, c + |close|), decode);
  }

  lemma ParseOfBlock<V>(text: string, open: string, close: string, b: Block, decode: string -> Option<V>)
    requires |open| > 0 && FirstBlock(text, open, close) == Some(b)
    ensures b.innerStart <= b.innerEnd <= |text|
    ensures ParseTagged(text, open, close, decode) == decode(text[b.innerStart..b.innerEnd])
  {
  }

  /**
   * On such a reply with no bracket after the block either, cleaning leaves
   * the text before and after the block, joined and trimmed.
   */
  lemma CleanBracketFreeReply(text: string, open: string, close: string, s: nat, c: nat)
    requires BracketTags(open, close)
    requires s + |open| <= c && OccursAt(text, open, s) && OccursAt(text, close, c)
    requires forall k :: 0 <= k < s ==> text[k] != '['
    requires forall k :: s + |open| <= k < c ==> text[k] != '['
    requires forall k :: c + |close| <= k < |text| ==> text[k] != '['
    ensures Clean(text, open, close) == Trim(text[..s] + text[c + |close|..])
  {
    var tail := text[c + |close|..];
    assert NoBracket(tail) by {
      forall k | 0 <= k < |tail| ensures tail[k] != '[' {
        assert tail[k] == text[c + |close| + k];
      }
    }
    NoBracketNoBlock(tail, open, close);
    FirstBlockAt(text, open, close, s, c);
    StripOfBlock(text, open, close, Block(s, s + |open|, c, c + |close|));
    var stripped := StripBlocks(text, open, close);
    assert stripped == text[..s] + tail;
    CleanIsTrimOfStrip(text, open, close);
  }

  lemma CleanIsTrimOfStrip(text: string, open: string, close: string)
    requires |open| > 0
    ensures Clean(text, open, close) == Trim(StripBlocks(text, open, close))
  {
  }

  lemma StripOfBlock(text: string, open: string, close: string, b: Block)
    requires |open| > 0 && FirstBlock(text, open, close) == Some(b)
    ensures b.start <= b.end <= |text|
    ensures StripBlocks(text, open, close) == text[..b.start] + StripBlocks(text[b.end..], open, close)
  {
  }
  /**
   * A reply written as prose, one block and a tail: the parse decodes the
   * block's contents, and when the tail holds no bracket either, cleaning
   * leaves the prose and the tail, joined and trimmed.
   */
  lemma NarrationReply<V>(prose: string, body: string, rest: string, open: string, close: string,
                          decode: string -> Option<V>)
    requires BracketTags(open, close) && NoBracket(prose) && NoBracket(body)
    ensures ParseTagged(prose + open + body + close + rest, open, close, decode) == decode(body)
    ensures NoBracket(rest) ==> Clean(prose + open + body + close + rest, open, close) == Trim(prose + rest)
  {
    var text := prose + open + body + close + rest;
    ReplyLayout(prose, body, rest, open, close);
    NarrationParse(text, |prose|, |prose| + |open| + |body|, prose, body, open, close, decode);
    if NoBracket(rest) {
      NarrationClean(text, |prose|, |prose| + |open| + |body|, prose, body, rest, open, close);
    }
  }

  /**
   * The global replace on prose, a block and a tail: the prose is kept, the
   * block removed, and the replace carries on over the tail, whatever it holds.
   */
  lemma StripNarration(prose: string, body: string, rest: string, open: string, close: string)
    requires BracketTags(open, close) && NoBracket(prose) && NoBracket(body)
    ensures StripBlocks(prose + open + body + close + rest, open, close) == prose + StripBlocks(rest, open, close)
  {
    var text := prose + open + body + close + rest;
    var s, c := |prose|, |prose| + |open| + |body|;
    ReplyLayout(prose, body, rest, open, close);
    NoBracketWithin(text, prose, 0);
    NoBracketWithin(text, body, s + |open|);
    FirstBlockAt(text, open, close, s, c);
    StripOfBlock(text, open, close, Block(s, s + |open|, c, c + |close|));
  }

  /** So `cleanText` of such a reply is the prose and the stripped tail, trimmed. */
  lemma CleanNarration(prose: string, body: string, rest: string, open: string, close: string)
    requires BracketTags(open, close) && NoBracket(prose) && NoBracket(body)
    ensures Clean(prose + open + body + close + rest, open, close) == Trim(prose + StripBlocks(rest, open, close))
  {
    StripNarration(prose, body, rest, open, close);
  }

  /** Two blocks in one reply are both removed: only the three stretches of prose remain. */
  lemma StripTwoBlocks(p1: string, b1: string, p2: string, b2: string, p3: string, open: string, close: string)
    requires BracketTags(open, close) && NoBracket(p1) && NoBracket(b1) && NoBracket(p2) && NoBracket(b2)
    requires NoBracket(p3)
    ensures StripBlocks(p1 + open + b1 + close + (p2 + open + b2 + close + p3), open, close) == p1 + p2 + p3
  {
    StripNarration(p1, b1, p2 + open + b2 + close + p3, open, close);
    StripNarration(p2, b2, p3, open, close);
    NoBracketNoBlock(p3, open, close);
  }

  lemma NarrationParse<V>(text: string, s: nat, c: nat, prose: string, body: string, open: string, close: string,
                          decode: string -> Option<V>)
    requires BracketTags(open, close) && NoBracket(prose) && NoBracket(body)
    requires s == |prose| && c == s + |open| + |body| && OccursAt(text, open, s) && OccursAt(text, close, c)
    requires text[..s] == prose && text[s + |open|..c] == body
    ensures ParseTagged(text, open, close, decode) == decode(body)
  {
    NoBracketWithin(text, prose, 0);
    NoBracketWithin(text, body, s + |open|);
    ParseBracketFreeReply(text, open, close, s, c, decode);
  }

  lemma NarrationClean(text: string, s: nat, c: nat, prose: string, body: string, rest: string,
                       open: string, close: string)
    requires BracketTags(open, close) && NoBracket(prose) && NoBracket(body) && NoBracket(rest)
    requires s == |prose| && c == s + |open| + |body| && OccursAt(text, open, s) && OccursAt(text, close, c)
    requires text[..s] == prose && text[s + |open|..c] == body && text[c + |close|..] == rest
    ensures Clean(text, open, close) == Trim(prose + rest)
  {
    NoBracketWithin(text, prose, 0);
    NoBracketWithin(text, body, s + |open|);
    NoBracketWithin(text, rest, c + |close|);
    CleanBracketFreeReply(text, open, close, s, c);
    assert text[..s] + text[c + |close|..] == prose + rest;
  }

  /** Where each part of such a reply sits. */
  lemma ReplyLayout(prose: string, body: string, rest: string, open: string, close: string)
    ensures var text := prose + open + body + close + rest;
            var s, c := |prose|, |prose| + |open| + |body|;
            && OccursAt(text, open, s) && OccursAt(text, close, c)
            && text[s + |open|..c] == body && text[..s] == prose && text[c + |close|..] == rest
            && text[..s] + text[c + |close|..] == prose + rest
  {
    var text := prose + open + body + close + rest;
    var s, c := |prose|, |prose| + |open| + |body|;
    assert text == (((prose + open) + body) + close) + rest;
    assert text[..s] == prose;
    assert text[s..s + |open|] == open;
    assert text[s + |open|..c] == body;
    assert text[c..c + |close|] == close;
    assert text[c + |close|..] == rest;
  }

  /** A bracket-free `part` found at `at` in `text` leaves that stretch bracket-free. */
  lemma NoBracketWithin(text: string, part: string, at: nat)
    requires NoBracket(part) && at + |part| <= |text| && text[at..at + |part|] == part
    ensures forall k :: at <= k < at + |part| ==> text[k] != '['
  {
    forall k | at <= k < at + |part|
      ensures text[k] != '['
    {
      assert text[k] == part[k - at];
    }
  }
}
