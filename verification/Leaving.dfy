/** The end of the headers of a message that asks for another protocol: the parser leaves
    there, and what follows is not its business. */
module Leaving {
  import opened Syntax
  import opened Machine
  import opened Messages
  import opened Marks
  import opened Invariant
  import opened Split
  import opened Independence
  import opened Headers
  import opened HeaderLines
  import opened Chunked
  import opened Framing
  import opened Targets
  import Q = Request
  import R = Response

  // ----- The empty line -----

  lemma LeavesStep(q: Parser)
    requires !q.flags.trailing && (q.flags.upgrade || q.meth.CONNECT?)
    ensures EndOfHeaders(q, LF) ==
            Upgraded(q.(nread := 0, upgrade := true), [HeadersComplete(SummaryOf(q)), MessageComplete])
  {
  }

  lemma EmptyLineLeaves(q: Parser, more: string)
    requires Inv(q) && q.state.HeaderFieldStart? && q.nread + 2 <= MAX_HEADER_SIZE
    requires !q.flags.trailing && (q.flags.upgrade || q.meth.CONNECT?)
    ensures Feed(q, CRLF + more) == Stopped(1, [HeadersDone(SummaryOf(q)), Complete], OtherProtocol)
  {
    hide FreeStep, EndOfHeaders, Inv, Feed, FreeFeed, SummaryOf;
    BlockSteps(q);
    var q1 := q.(state := HeadersAlmostDone, nread := q.nread + 1);
    var q2 := q.(state := HeadersAlmostDone, nread := q.nread + 2);
    LeavesStep(q2);
    SameLater(q, HeadersAlmostDone, q.nread + 2);
    OneFreeByte(q, CR);
    OneFreeByte(q1, LF);
    FreeFeedAppend(q, [CR], [LF]);
    assert [CR] + [LF] == CRLF;
    NotOpen();
    OpenEventsAre([], CR);
    OneSignal(CR);
    var s := SummaryOf(q);
    Notices(NO_MARKS, [], 0, s);
    SameWithoutFlush([HeadersComplete(s), MessageComplete], NO_MARKS, [], 0, LF);
    ShortIsWithin(q, q.nread, CRLF);
    WithinFeeds(q, CRLF);
    FeedAppend(q, CRLF, more);
    assert [] + [HeadersDone(s), Complete] == [HeadersDone(s), Complete];
  }

  lemma BareStep(q: Parser)
    requires q.state.HeaderFieldStart?
    ensures FreeStep(q, LF) == EndOfHeaders(q.(state := HeadersAlmostDone, nread := q.nread + 1), LF)
  {
    hide EndOfHeaders;
  }

  lemma NreadByte(o: Outcome, n: nat, m: nat, ch: char)
    ensures var a, b := OneByte(WithNread(o, n), ch), OneByte(WithNread(o, m), ch);
            && a.events == b.events && (a.Consumed? <==> b.Consumed?)
            && (if a.Consumed? then a.q == b.q.(nread := n) && b.q.nread == m else a.reason == b.reason && a.at == 0 && b.at == 0)
  {
    hide SignalEvents, Open, OpenEvents;
  }

  /** An empty line may be a LF alone: it ends the headers, or the protocol, as CR LF does. */
  lemma BareEmptyLine(q: Parser)
    requires Inv(q) && q.state.HeaderFieldStart? && q.nread + 2 <= MAX_HEADER_SIZE
    ensures var a, b := Feed(q, [LF]), Feed(q, CRLF);
            && a.events == b.events && (a.Consumed? <==> b.Consumed?)
            && (if a.Consumed? then a.q == b.q.(nread := a.q.nread) && a.q.nread <= b.q.nread
                else a.reason == b.reason && a.at == 0 && b.at == 1)
  {
    hide FreeStep, EndOfHeaders, Inv, Feed, FreeFeed, OneByte, WithNread;
    BlockSteps(q);
    BareStep(q);
    var p := q.(state := HeadersAlmostDone);
    EndOfHeadersNread(p, q.nread + 1, LF);
    EndOfHeadersNread(p, q.nread + 2, LF);
    var o, reset := EndOfHeaders(p, LF), Resets(p, LF);
    NreadByte(o, if reset then 0 else q.nread + 1, if reset then 0 else q.nread + 2, LF);
    OneFreeByte(q, LF);
    CrThenLf(q);
    ShortIsWithin(q, q.nread, [LF]);
    ShortIsWithin(q, q.nread, CRLF);
    WithinFeeds(q, [LF]);
    WithinFeeds(q, CRLF);
  }

  lemma CrThenLf(q: Parser)
    requires q.state.HeaderFieldStart?
    ensures FreeFeed(q, CRLF) ==
            After(1, [], OneByte(FreeStep(q.(state := HeadersAlmostDone, nread := q.nread + 1), LF), LF))
  {
    hide FreeStep, EndOfHeaders, FreeFeed, OneByte;
    BlockSteps(q);
    var q1 := q.(state := HeadersAlmostDone, nread := q.nread + 1);
    CrSilent(q);
    OneFreeByte(q1, LF);
    FreeFeedAppend(q, [CR], [LF]);
    assert [CR] + [LF] == CRLF;
  }

  lemma CrSilent(q: Parser)
    requires q.state.HeaderFieldStart?
    ensures FreeFeed(q, [CR]) == Consumed(q.(state := HeadersAlmostDone, nread := q.nread + 1), [])
  {
    hide FreeStep, EndOfHeaders, FreeFeed;
    BlockSteps(q);
    OneFreeByte(q, CR);
    NotOpen();
    OpenEventsAre([], CR);
    OneSignal(CR);
  }

  lemma NotLF(q: Parser, ch: char)
    requires q.state.HeadersAlmostDone? && ch != LF
    ensures FreeStep(q, ch) == Error
  {
  }

  /** After the CR of an empty line only LF is taken. */
  lemma OnlyLF(q: Parser, ch: char)
    requires Inv(q) && q.state.HeaderFieldStart? && q.nread + 2 <= MAX_HEADER_SIZE && ch != LF
    ensures Feed(q, [CR, ch]) == Stopped(1, [], BadByte)
  {
    hide FreeStep, Feed, FreeFeed, Inv;
    var q1 := q.(state := HeadersAlmostDone, nread := q.nread + 1);
    CrSilent(q);
    NotLF(q1, ch);
    OneFreeByte(q1, ch);
    FreeFeedAppend(q, [CR], [ch]);
    assert [CR] + [ch] == [CR, ch];
    ShortIsWithin(q, q.nread, [CR, ch]);
    WithinFeeds(q, [CR, ch]);
  }

  /** A run that left at the last byte of `head`: the message `m` is announced and complete,
      without a body. */
  predicate Left(r: Run, head: string, x: Inbox, m: Message) {
    && r.Stopped? && r.reason.OtherProtocol? && head != [] && r.at == |head| - 1
    && Collect(x, r.events) == Inbox(x.done + [m], EMPTY)
  }

  lemma HeadLeaves(q: Parser, x: Inbox, hs: seq<HeaderLine>, more: string)
    requires Inv(q) && q.state.HeaderFieldStart? && !x.cur.lastIsField && !q.flags.trailing
    requires forall i :: 0 <= i < |hs| ==> LineOk(hs[i])
    requires q.nread + |Head(hs)| <= MAX_HEADER_SIZE
    requires q.meth.CONNECT? || LinesFields(FieldsOf(q), hs).upgrade
    ensures Left(Feed(q, Head(hs) + more), Head(hs), x, Announced(x.cur, hs, SummaryOf(AfterLines(q, hs))))
  {
    hide Feed, FreeFeed, Inv, LineOk, PrintLines, LinesFields, WithLines, Collect, SummaryOf;
    LinesThenEnd(q, x, hs);
    var q1 := AfterLines(q, hs);
    var q2 := Feed(q, PrintLines(hs)).q;
    EmptyLineLeaves(q2, more);
    SameHead(q1, q2);
    assert Head(hs) + more == PrintLines(hs) + (CRLF + more);
    FeedAppend(q, PrintLines(hs), CRLF + more);
    var y, s := Inbox(x.done, WithLines(x.cur, hs)), SummaryOf(q2);
    CollectAppend(x, Feed(q, PrintLines(hs)).events, [HeadersDone(s), Complete]);
    Collect2(y, HeadersDone(s), Complete);
  }

  lemma LeftAfter(q: Parser, x: Inbox, line: string, head: string, more: string, m: Message)
    requires Feed(q, line).Consumed?
    requires var r := Feed(q, line); Left(Feed(r.q, head + more), head, Collect(x, r.events), m)
    requires Collect(x, Feed(q, line).events).done == x.done
    ensures Left(Feed(q, (line + head) + more), line + head, x, m)
  {
    hide Feed, Collect;
    var r := Feed(q, line);
    assert (line + head) + more == line + (head + more);
    FeedAppend(q, line, head + more);
    CollectAppend(x, r.events, Feed(r.q, head + more).events);
  }

  // ----- Requests and responses -----

  /** A printed head within the header limit, whatever it asks for. */
  ghost predicate HeadFits(q: Parser, l: Q.RequestLine, hs: seq<HeaderLine>) {
    && Q.RequestOk(l) && (forall i :: 0 <= i < |hs| ==> LineOk(hs[i]))
    && q.nread + |Q.PrintRequestLine(l)| + |Head(hs)| <= MAX_HEADER_SIZE
  }

  /** The exit for another protocol, exactly: a request with a whole head leaves the parser at
      the LF of its empty line when its method is CONNECT or some line with a value is an
      upgrade line; then the message is announced and completed once, and nothing after it is
      read.  In every other case the head is consumed. */
  lemma RequestLeaves(q: Parser, x: Inbox, l: Q.RequestLine, hs: seq<HeaderLine>, more: string)
    requires Q.AwaitsRequest(q) && HeadFits(q, l, hs) && Reports(x.cur, NO_TARGET) && !x.cur.lastIsField
    ensures var head := Q.PrintRequestLine(l) + Head(hs);
            if l.meth.CONNECT? || SomeUpgrade(hs) then Left(Feed(q, head + more), head, x, Q.Asked(l, hs, x.cur))
            else Feed(q, head).Consumed?
  {
    hide Inv, Feed, FreeFeed, Q.RequestOk, LineOk, Q.PrintRequestLine, Head, LinesFields, WithLines, SummaryOf, Q.Keeps,
         Q.WithTarget, Collect, Q.AfterLine, SomeUpgrade, FlagsAre, Announced;
    Q.LineFits(q, x, l);
    Q.LineFacts(q, l);
    var q1, y := Q.AfterLine(q, l), Inbox(x.done, Q.WithTarget(R.Began(x.cur), l.target));
    Q.TargetSettled(x.cur, l.target);
    UpgradeFlag(hs);
    Q.RequestSums(q, l, LinesFields(R.NO_FIELDS, hs));
    if l.meth.CONNECT? || SomeUpgrade(hs) {
      HeadLeaves(q1, y, hs, more);
      LeftAfter(q, x, Q.PrintRequestLine(l), Head(hs), more, Q.Asked(l, hs, x.cur));
    } else {
      HeadRun(q1, y, hs);
      FeedTwice(q, x, Q.PrintRequestLine(l), Head(hs));
    }
  }

  lemma UpgradeFlag(hs: seq<HeaderLine>)
    requires forall i :: 0 <= i < |hs| ==> LineOk(hs[i])
    ensures LinesFields(R.NO_FIELDS, hs).upgrade <==> SomeUpgrade(hs)
  {
    hide LineOk, LinesFields, SomeUpgrade, SomeLine;
    FlagsExactly(R.NO_FIELDS, hs);
  }

  /** For a response it is the upgrade lines alone. */
  lemma ResponseLeaves(q: Parser, x: Inbox, l: R.StatusLine, hs: seq<HeaderLine>, more: string)
    requires R.AwaitsResponse(q) && !x.cur.lastIsField
    requires R.StatusOk(l) && forall i :: 0 <= i < |hs| ==> LineOk(hs[i])
    requires q.nread + |R.PrintStatus(l)| + |Head(hs)| <= MAX_HEADER_SIZE
    ensures var head, g := R.PrintStatus(l) + Head(hs), LinesFields(R.NO_FIELDS, hs);
            if SomeUpgrade(hs) then
              Left(Feed(q, head + more), head, x,
                   Announced(R.Began(x.cur), hs, R.SummaryIs(l, R.KeepsAlive(Decimal(l.minor), g), g.length)))
            else Feed(q, head).Consumed?
  {
    hide Inv, Feed, FreeFeed, R.StatusOk, LineOk, R.PrintStatus, Head, LinesFields, WithLines, SummaryOf, R.KeepsAlive,
         Collect, SomeUpgrade, Announced;
    var q1 := R.AfterStatus(q, l);
    R.StatusRun(q, l);
    ShortFeed(q, R.PrintStatus(l));
    R.AfterStatusInv(q, l);
    Collect1(x, Begin);
    var y := Receive(x, Begin);
    UpgradeFlag(hs);
    R.ResponseSums(q, l, LinesFields(R.NO_FIELDS, hs));
    if SomeUpgrade(hs) {
      HeadLeaves(q1, y, hs, more);
      LeftAfter(q, x, R.PrintStatus(l), Head(hs), more,
                Announced(R.Began(x.cur), hs, SummaryOf(AfterLines(q1, hs))));
    } else {
      HeadRun(q1, y, hs);
      FeedTwice(q, x, R.PrintStatus(l), Head(hs));
    }
  }
}
