/** From the header lines to the end of the message: what the lines say decides how the
    body is delimited, and the application gets the lines and the body back. */
module Framing {
  import opened Syntax
  import opened Machine
  import opened Messages
  import opened Marks
  import opened Frames
  import opened Invariant
  import opened Split
  import opened Headers
  import opened HeaderLines
  import opened Bodies
  import opened Chunked

  /** A header block after which this protocol goes on. */
  predicate GoesOn(q: Parser, g: Fields) {
    !q.upgrade && !q.meth.CONNECT? && !g.upgrade && !q.flags.trailing
  }

  function Head(hs: seq<HeaderLine>): string { PrintLines(hs) + CRLF }

  /** The parser with the framing fields of the header lines. */
  function AfterLines(q: Parser, hs: seq<HeaderLine>): Parser
    requires forall i :: 0 <= i < |hs| ==> LineOk(hs[i])
  {
    WithFields(q, LinesFields(FieldsOf(q), hs))
  }

  /** A run that consumed header lines; `q1` is the parser but for its place. */
  predicate AtEmptyLine(r: Run, x: Inbox, q1: Parser, m: Message) {
    && r.Consumed? && Inv(r.q) && r.q.nread + 2 <= MAX_HEADER_SIZE
    && r.q == q1.(state := HeaderFieldStart, headerState := r.q.headerState, index := r.q.index, nread := r.q.nread)
    && Collect(x, r.events) == Inbox(x.done, m)
  }

  lemma LinesThenEnd(q: Parser, x: Inbox, hs: seq<HeaderLine>)
    requires Inv(q) && q.state.HeaderFieldStart? && !x.cur.lastIsField
    requires forall i :: 0 <= i < |hs| ==> LineOk(hs[i])
    requires q.nread + |Head(hs)| <= MAX_HEADER_SIZE
    ensures AtEmptyLine(Feed(q, PrintLines(hs)), x, AfterLines(q, hs), WithLines(x.cur, hs))
  {
    hide Feed, FreeFeed, Inv, LineOk, PrintLines, LinesFields, WithLines, Collect;
    LinesRun(q, FieldsOf(q), x, hs);
    ShortFeed(q, PrintLines(hs));
    CountsUpTo(q, PrintLines(hs));
  }

  // ----- The empty line -----

  lemma EndIs(q: Parser)
    requires !q.upgrade && !q.meth.CONNECT? && !q.flags.upgrade && !q.flags.trailing
    ensures EndOfHeaders(q, LF) ==
            (var complete, q1 := HeadersComplete(SummaryOf(q)), q.(nread := 0);
             if q.flags.chunked then Next(q1.(state := ChunkSizeStart), [complete])
             else if q.contentLength == 0 then Next(q1.(state := NewMessage(q)), [complete, MessageComplete])
             else Next(q1.(state := BodyIdentity), [complete]))
  {
  }

  lemma NothingOpenInBody()
    ensures Open(ChunkSizeStart) == [] && Open(BodyIdentity) == []
  {
  }

  /** The parser where the body begins, or after the message if there is none. */
  function AfterHead(q: Parser): Parser {
    q.(nread := 0, state := if q.flags.chunked then ChunkSizeStart
                            else if q.contentLength == 0 then NewMessage(q) else BodyIdentity)
  }

  lemma SameLater(q: Parser, s: State, n: nat)
    ensures SummaryOf(q.(state := s, nread := n)) == SummaryOf(q)
    ensures NewMessage(q.(state := s, nread := n)) == NewMessage(q)
    ensures AfterHead(q.(state := s, nread := n)) == AfterHead(q)
  {
  }

  lemma EmptyLine(q: Parser, x: Inbox)
    requires Inv(q) && q.state.HeaderFieldStart? && q.nread + 2 <= MAX_HEADER_SIZE
    requires !q.upgrade && !q.meth.CONNECT? && !q.flags.upgrade && !q.flags.trailing
    ensures var r := Feed(q, CRLF);
            && r.Consumed? && Inv(r.q) && r.q == AfterHead(q)
            && var y := Receive(x, HeadersDone(SummaryOf(q)));
               Collect(x, r.events) == if q.flags.chunked || q.contentLength > 0 then y else Receive(y, Complete)
  {
    hide Feed, Inv, NewMessage, Receive, SummaryOf;
    var q2 := q.(state := HeadersAlmostDone, nread := q.nread + 2);
    var s := SummaryOf(q);
    EndIs(q2);
    SameLater(q, HeadersAlmostDone, q.nread + 2);
    NewMessageState(q);
    NothingOpenInBody();
    BlockEnd(q);
    Notices(NO_MARKS, [], 0, s);
    SameWithoutFlush([HeadersComplete(s)], NO_MARKS, [], 0, LF);
    SameWithoutFlush([HeadersComplete(s), MessageComplete], NO_MARKS, [], 0, LF);
    Collect1(x, HeadersDone(s));
    Collect2(x, HeadersDone(s), Complete);
    FeedSafe(q, CRLF);
  }

  // ----- Messages with a length -----

  /** The message the application has when the headers are complete. */
  function Announced(m: Message, hs: seq<HeaderLine>, s: Summary): Message {
    var w := WithLines(m, hs);
    w.(summary := w.summary + [s])
  }

  /** A run that consumed a header block: the message `m` is announced, and complete when
      it has no body; `q1` is the parser but for its place. */
  predicate Headed(r: Run, x: Inbox, q1: Parser, m: Message) {
    && r.Consumed? && Inv(r.q) && r.q == AfterHead(q1).(headerState := r.q.headerState, index := r.q.index)
    && Collect(x, r.events) ==
       if q1.flags.chunked || q1.contentLength > 0 then Inbox(x.done, m) else Inbox(x.done + [m], EMPTY)
  }

  lemma HeadRun(q: Parser, x: Inbox, hs: seq<HeaderLine>)
    requires Inv(q) && q.state.HeaderFieldStart? && !x.cur.lastIsField
    requires forall i :: 0 <= i < |hs| ==> LineOk(hs[i])
    requires GoesOn(q, LinesFields(FieldsOf(q), hs)) && q.nread + |Head(hs)| <= MAX_HEADER_SIZE
    ensures Headed(Feed(q, Head(hs)), x, AfterLines(q, hs), Announced(x.cur, hs, SummaryOf(AfterLines(q, hs))))
  {
    hide Feed, FreeFeed, Inv, LineOk, PrintLines, LinesFields, WithLines, Collect, SummaryOf, NewMessage;
    LinesThenEnd(q, x, hs);
    var q1 := AfterLines(q, hs);
    var q2 := Feed(q, PrintLines(hs)).q;
    EmptyLine(q2, Inbox(x.done, WithLines(x.cur, hs)));
    SameHead(q1, q2);
    FeedTwice(q, x, PrintLines(hs), CRLF);
  }

  lemma SameHead(q1: Parser, q2: Parser)
    requires q2 == q1.(state := q2.state, headerState := q2.headerState, index := q2.index, nread := q2.nread)
    ensures SummaryOf(q2) == SummaryOf(q1) && NewMessage(q2) == NewMessage(q1)
  {
  }

  /** A body of the declared length comes back whole, and the message completes once. */
  lemma LengthMessage(q: Parser, x: Inbox, hs: seq<HeaderLine>, body: string)
    requires Inv(q) && q.state.HeaderFieldStart? && !x.cur.lastIsField
    requires forall i :: 0 <= i < |hs| ==> LineOk(hs[i])
    requires GoesOn(q, LinesFields(FieldsOf(q), hs)) && q.nread + |Head(hs)| <= MAX_HEADER_SIZE
    requires !LinesFields(FieldsOf(q), hs).chunked && LinesFields(FieldsOf(q), hs).length == |body|
    ensures Finished(Feed(q, Head(hs) + body), q, x, NewMessage(AfterLines(q, hs)), 0,
                  WithBody(Announced(x.cur, hs, SummaryOf(AfterLines(q, hs))), body))
  {
    hide Feed, FreeFeed, Inv, LineOk, Head, LinesFields, WithLines, Collect, SummaryOf, NewMessage;
    HeadRun(q, x, hs);
    var q1 := AfterLines(q, hs);
    var q2 := Feed(q, Head(hs)).q;
    var m := Announced(x.cur, hs, SummaryOf(q1));
    if body == [] {
      assert Head(hs) + body == Head(hs) && m.body + body == m.body;
    } else {
      IdentityRun(q2, body, Inbox(x.done, m));
      SameBody(q1, q2);
      FeedTwice(q, x, Head(hs), body);
      FeedSafe(q, Head(hs) + body);
    }
  }

  lemma SameBody(q1: Parser, q2: Parser)
    requires q2.kind == q1.kind && q2.flags == q1.flags && q2.httpMajor == q1.httpMajor && q2.httpMinor == q1.httpMinor
    ensures NewMessage(q2.(contentLength := 0)) == NewMessage(q1)
  {
  }

  // ----- Chunked messages -----

  /** A chunked body comes back as the concatenation of its chunks, whatever length the
      headers also declare. */
  lemma ChunkedMessage(q: Parser, x: Inbox, hs: seq<HeaderLine>, cs: seq<Chunk>, zero: string, extension: string,
                       trailers: seq<HeaderLine>)
    requires Inv(q) && q.state.HeaderFieldStart? && !x.cur.lastIsField
    requires forall i :: 0 <= i < |hs| ==> LineOk(hs[i])
    requires GoesOn(q, LinesFields(FieldsOf(q), hs)) && q.nread + |Head(hs)| <= MAX_HEADER_SIZE
    requires LinesFields(FieldsOf(q), hs).chunked
    requires forall i :: 0 <= i < |cs| ==> ChunkOk(cs[i])
    requires SizeOk(zero, extension) && Wrap(Hex(zero)) == 0
    requires (forall i :: 0 <= i < |trailers| ==> LineOk(trailers[i])) && |Head(trailers)| <= MAX_HEADER_SIZE
    ensures Finished(Feed(q, Head(hs) + (EncodeAll(cs) + LastChunk(zero, extension, trailers))), q, x,
                  NewMessage(WithTrailers(AfterLines(q, hs), trailers)), |Head(trailers)|,
                  WithLines(WithBody(Announced(x.cur, hs, SummaryOf(AfterLines(q, hs))), DataOf(cs)), trailers))
  {
    hide Feed, FreeFeed, Inv, LineOk, LinesFields, WithLines, Collect, SummaryOf, NewMessage, ChunkOk, SizeOk, Hex,
         EncodeAll, LastChunk, PrintLines;
    HeadRun(q, x, hs);
    LinesSettle(x.cur, hs);
    var q1 := AfterLines(q, hs);
    var m := Announced(x.cur, hs, SummaryOf(q1));
    SameTrailers(q1, Feed(q, Head(hs)).q, trailers);
    ChunkedBody(Feed(q, Head(hs)).q, Inbox(x.done, m), cs, zero, extension, trailers);
    FeedTwice(q, x, Head(hs), EncodeAll(cs) + LastChunk(zero, extension, trailers));
  }

  lemma SameTrailers(q: Parser, q1: Parser, trailers: seq<HeaderLine>)
    requires forall i :: 0 <= i < |trailers| ==> LineOk(trailers[i])
    requires q1.kind == q.kind && q1.httpMajor == q.httpMajor && q1.httpMinor == q.httpMinor && FieldsOf(q1) == FieldsOf(q)
    ensures NewMessage(WithTrailers(q1, trailers)) == NewMessage(WithTrailers(q, trailers))
  {
    hide LinesFields, LineOk;
  }

  lemma {:induction false} LinesSettle(m: Message, hs: seq<HeaderLine>)
    requires !m.lastIsField
    ensures !WithLines(m, hs).lastIsField
    decreases |hs|
  {
    if hs != [] {
      LinesSettle(WithLine(m, hs[0]), hs[1..]);
    }
  }

  // ----- Either kind of body -----

  /** A body of the declared length, or chunks with a last chunk and trailers. */
  datatype Body =
    | Sized(bytes: string)
    | InChunks(chunks: seq<Chunk>, zero: string, extension: string, trailers: seq<HeaderLine>)

  /** The header lines announce such a body. */
  predicate BodyOk(b: Body, g: Fields) {
    match b
    case Sized(bytes) => !g.chunked && g.length == |bytes|
    case InChunks(cs, zero, extension, trailers) =>
      && g.chunked && (forall i :: 0 <= i < |cs| ==> ChunkOk(cs[i]))
      && SizeOk(zero, extension) && Wrap(Hex(zero)) == 0
      && (forall i :: 0 <= i < |trailers| ==> LineOk(trailers[i])) && |Head(trailers)| <= MAX_HEADER_SIZE
  }

  function PrintBody(b: Body): string {
    match b
    case Sized(bytes) => bytes
    case InChunks(cs, zero, extension, trailers) => EncodeAll(cs) + LastChunk(zero, extension, trailers)
  }

  /** The message with its body, and the trailers after it. */
  function WithWholeBody(m: Message, b: Body): Message {
    match b
    case Sized(bytes) => WithBody(m, bytes)
    case InChunks(cs, _, _, trailers) => WithLines(WithBody(m, DataOf(cs)), trailers)
  }

  /** What the trailers add to what the header lines say. */
  function LastFields(b: Body, g: Fields): Fields
    requires BodyOk(b, g)
  {
    if b.Sized? then g else LinesFields(Unsized(g), b.trailers)
  }

  /** The header bytes that are still counted when the next message begins. */
  function Carried(b: Body): nat { if b.Sized? then 0 else |Head(b.trailers)| }

  lemma LastNewMessage(q: Parser, hs: seq<HeaderLine>, trailers: seq<HeaderLine>)
    requires (forall i :: 0 <= i < |hs| ==> LineOk(hs[i])) && forall i :: 0 <= i < |trailers| ==> LineOk(trailers[i])
    ensures WithTrailers(AfterLines(q, hs), trailers) ==
            WithFields(q, LinesFields(Unsized(LinesFields(FieldsOf(q), hs)), trailers))
  {
    hide LineOk, LinesFields;
  }

  /** From the header lines to the end of the message: the lines, the body and the trailers
      come back, and the message completes once. */
  lemma WholeMessage(q: Parser, x: Inbox, hs: seq<HeaderLine>, b: Body)
    requires Inv(q) && q.state.HeaderFieldStart? && !x.cur.lastIsField
    requires forall i :: 0 <= i < |hs| ==> LineOk(hs[i])
    requires GoesOn(q, LinesFields(FieldsOf(q), hs)) && q.nread + |Head(hs)| <= MAX_HEADER_SIZE
    requires BodyOk(b, LinesFields(FieldsOf(q), hs))
    ensures Finished(Feed(q, Head(hs) + PrintBody(b)), q, x,
                     NewMessage(WithFields(q, LastFields(b, LinesFields(FieldsOf(q), hs)))), Carried(b),
                     WithWholeBody(Announced(x.cur, hs, SummaryOf(AfterLines(q, hs))), b))
  {
    hide Feed, FreeFeed, Inv, LineOk, LinesFields, WithLines, Collect, SummaryOf, NewMessage, ChunkOk, SizeOk, Hex,
         EncodeAll, LastChunk, PrintLines, GoesOn, Finished, Announced, WithBody;
    match b
    case Sized(bytes) =>
      LengthMessage(q, x, hs, bytes);
    case InChunks(cs, zero, extension, trailers) =>
      LastNewMessage(q, hs, trailers);
      ChunkedMessage(q, x, hs, cs, zero, extension, trailers);
  }
}
