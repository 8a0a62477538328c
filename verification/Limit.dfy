/** The limit on header bytes, on whole heads: what is too long is refused, at the byte that
    is too much. */
module Limit {
  import opened Syntax
  import opened Machine
  import opened Messages
  import opened Marks
  import opened Invariant
  import opened Split
  import opened Headers
  import opened HeaderLines
  import opened Chunked
  import opened Framing
  import opened Targets
  import Q = Request
  import R = Response

  /** A run that is refused at byte `at`. */
  predicate RefusedAt(r: Run, at: nat) { r.Stopped? && r.reason.BadByte? && r.at == at }

  lemma CountedOrNot(q: Parser, ch: char)
    requires Inv(q) && FreeStep(q, ch).Next?
    ensures var o := FreeStep(q, ch);
            && Inv(o.q) && o.q.nread <= q.nread + 1
            && (o.q.nread == q.nread + 1 ==> ParsingHeader(q.state))
  {
    hide FreeStep, Inv, Resets;
    InvCountable(q);
    CountedStep(q, q.nread, ch);
  }

  lemma AtLimit(q: Parser, ch: char)
    requires q.nread == MAX_HEADER_SIZE && ParsingHeader(q.state)
    ensures Step(q, ch) == Error
  {
    hide FreeStep;
  }

  /** Bytes that are all counted: the one past the limit is refused. */
  lemma {:induction false} TooMany(q: Parser, s: string)
    requires Inv(q) && FreeFeed(q, s).Consumed? && FreeFeed(q, s).q.nread == q.nread + |s|
    requires q.nread <= MAX_HEADER_SIZE < q.nread + |s|
    ensures RefusedAt(Feed(q, s), MAX_HEADER_SIZE - q.nread)
    decreases |s|
  {
    hide FreeStep, Inv;
    var o := FreeStep(q, s[0]);
    CountedOrNot(q, s[0]);
    CountsUpTo(o.q, s[1..]);
    if q.nread == MAX_HEADER_SIZE {
      AtLimit(q, s[0]);
    } else {
      TooMany(o.q, s[1..]);
    }
  }

  /** A run that is refused stays refused, whatever follows. */
  lemma StaysRefused(q: Parser, a: string, b: string, n: nat)
    requires RefusedAt(Feed(q, a), n)
    ensures RefusedAt(Feed(q, a + b), n)
  {
    hide Feed;
    FeedAppend(q, a, b);
  }

  /** Header lines and the CR of the empty line: every byte is counted. */
  lemma LinesCount(q: Parser, x: Inbox, hs: seq<HeaderLine>)
    requires q.state.HeaderFieldStart? && !x.cur.lastIsField && forall i :: 0 <= i < |hs| ==> LineOk(hs[i])
    ensures var s := PrintLines(hs) + [CR];
            var r := FreeFeed(q, s);
            r.Consumed? && r.q.state.HeadersAlmostDone? && r.q.nread == q.nread + |s|
  {
    hide FreeFeed, FreeStep, LineOk, PrintLines, LinesFields, WithLines, Collect, Stands;
    AtLineStart(q);
    LinesRun(q, FieldsOf(q), x, hs);
    var q1 := FreeFeed(q, PrintLines(hs)).q;
    StandsState(q1, LineStart, LinesFields(FieldsOf(q), hs));
    BlockSteps(q1);
    FreeFeedSnoc(q, PrintLines(hs), CR);
  }

  lemma AtLineStart(q: Parser)
    requires q.state.HeaderFieldStart?
    ensures Stands(q, LineStart, FieldsOf(q))
  {
  }

  /** A first line whose bytes are all counted, and the rest of the head: it is refused at the
      first byte past the limit, and not at all within it. */
  lemma LineAndHead(q: Parser, x: Inbox, line: string, hs: seq<HeaderLine>, more: string)
    requires Inv(q) && q.nread <= MAX_HEADER_SIZE && forall i :: 0 <= i < |hs| ==> LineOk(hs[i])
    requires var r := FreeFeed(q, line);
             r.Consumed? && r.q.state.HeaderFieldStart? && r.q.nread == q.nread + |line| && !x.cur.lastIsField
    ensures var head := line + Head(hs);
            if q.nread + |head| > MAX_HEADER_SIZE then RefusedAt(Feed(q, head + more), MAX_HEADER_SIZE - q.nread)
            else Feed(q, head).Stopped? ==> !Feed(q, head).reason.BadByte?
  {
    hide Inv, Feed, FreeFeed, LineOk, PrintLines;
    var s, head := line + (PrintLines(hs) + [CR]), line + Head(hs);
    assert head == s + [LF] && head + more == s + ([LF] + more);
    LinesCount(FreeFeed(q, line).q, x, hs);
    FreeFeedAppend(q, line, PrintLines(hs) + [CR]);
    if q.nread + |s| > MAX_HEADER_SIZE {
      TooMany(q, s);
      StaysRefused(q, s, [LF] + more, MAX_HEADER_SIZE - q.nread);
    } else {
      ShortFeed(q, s);
      var q1 := Feed(q, s).q;
      FeedAppend(q, s, [LF]);
      FeedOne(q1, LF);
      if q1.nread == MAX_HEADER_SIZE {
        AtLimit(q1, LF);
        StaysRefused(q, s + [LF], more, MAX_HEADER_SIZE - q.nread);
      } else {
        EndAccepted(q1);
      }
    }
  }

  /** The head of a request with more than 81920 bytes, those counted before it included, is
      refused at the first byte that is too much; no shorter one is. */
  lemma HeadLimit(q: Parser, x: Inbox, l: Q.RequestLine, hs: seq<HeaderLine>, more: string)
    requires Q.AwaitsRequest(q) && Q.RequestOk(l) && (forall i :: 0 <= i < |hs| ==> LineOk(hs[i]))
    requires Reports(x.cur, NO_TARGET) && !x.cur.lastIsField && q.nread <= 81920
    ensures var head := Q.PrintRequestLine(l) + Head(hs);
            if q.nread + |head| > 81920 then RefusedAt(Feed(q, head + more), 81920 - q.nread)
            else Feed(q, head).Stopped? ==> !Feed(q, head).reason.BadByte?
  {
    hide Inv, Feed, FreeFeed, Q.RequestOk, LineOk, Q.PrintRequestLine, PrintLines, Collect;
    Q.LineAndTarget(q, x, l);
    Q.LineFacts(q, l);
    InvOfAwaits(q);
    LineAndHead(q, x, Q.PrintRequestLine(l), hs, more);
  }

  /** So is the head of a response. */
  lemma ResponseHeadLimit(q: Parser, l: R.StatusLine, hs: seq<HeaderLine>, more: string)
    requires R.AwaitsResponse(q) && R.StatusOk(l) && (forall i :: 0 <= i < |hs| ==> LineOk(hs[i]))
    requires q.nread <= 81920
    ensures var head := R.PrintStatus(l) + Head(hs);
            if q.nread + |head| > 81920 then RefusedAt(Feed(q, head + more), 81920 - q.nread)
            else Feed(q, head).Stopped? ==> !Feed(q, head).reason.BadByte?
  {
    hide Inv, Feed, FreeFeed, R.StatusOk, LineOk, R.PrintStatus, PrintLines;
    R.StatusRun(q, l);
    LineAndHead(q, NO_MESSAGES, R.PrintStatus(l), hs, more);
  }

  lemma InvOfAwaits(q: Parser)
    requires Q.AwaitsRequest(q)
    ensures Inv(q)
  {
  }

  lemma EndAccepted(q: Parser)
    requires q.state.HeadersAlmostDone? && q.nread < MAX_HEADER_SIZE
    ensures Step(q, LF).Next? || Step(q, LF).Upgraded?
  {
    hide NewMessage, SummaryOf;
  }
}
