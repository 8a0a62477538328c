/** Chunked bodies (section 3.6.1 of RFC 2616): decoding inverts encoding. */
module Chunked {
  import opened Spelling
  import opened Syntax
  import opened Machine
  import opened Messages
  import opened Marks
  import opened Frames
  import opened Invariant
  import opened Split
  import opened Headers
  import opened HeaderLines
  import opened Bodies

  // ----- Sizes -----

  /** What a byte of a size counts for: a hexadecimal digit its value, and a byte from 128 on
      nothing; any other byte is no digit. */
  function Worth(ch: char): (v: int)
    ensures -1 <= v < 16
  {
    if ch as int >= 128 then 0 else HexValue(ch)
  }

  predicate IsHex(s: string) { forall i :: 0 <= i < |s| ==> Worth(s[i]) >= 0 }

  /** The value of a hexadecimal numeral, either case, any leading zeros. */
  function Hex(s: string): nat
    requires IsHex(s)
  {
    if s == [] then 0 else 16 * Hex(s[..|s| - 1]) + Worth(s[|s| - 1])
  }

  /** The table gives every byte what it is worth. */
  lemma UnhexTable(ch: char)
    ensures Unhex(ch) == Worth(ch)
    ensures HexValue(ch) >= 0 ==> Worth(ch) == HexValue(ch)
  {
  }

  function HexDigit(d: nat, capitals: bool): (ch: char)
    requires d < 16
    ensures HexValue(ch) == Worth(ch) == d
  {
    if capitals then "0123456789ABCDEF"[d] else "0123456789abcdef"[d]
  }

  /** A number as a sender prints it. */
  function PrintHex(n: nat, capitals: bool): string {
    if n < 16 then [HexDigit(n, capitals)] else PrintHex(n / 16, capitals) + [HexDigit(n % 16, capitals)]
  }

  lemma {:induction false} HexPrints(n: nat, capitals: bool)
    ensures PrintHex(n, capitals) != [] && IsHex(PrintHex(n, capitals)) && Hex(PrintHex(n, capitals)) == n
    decreases n
  {
    hide HexValue, Worth, HexDigit;
    var s := PrintHex(n, capitals);
    if n >= 16 {
      HexPrints(n / 16, capitals);
      assert s[..|s| - 1] == PrintHex(n / 16, capitals);
    } else {
      assert s[..|s| - 1] == [] && Hex([]) == 0;
    }
  }

  /** A chunk as a sender may write it. */
  datatype Chunk = Chunk(size: string, extension: string, data: string)

  predicate SizeOk(size: string, extension: string) {
    && size != [] && IsHex(size)
    && (extension != [] ==> extension[0] == ';' || extension[0] == ' ')
    && (forall i :: 0 <= i < |extension| ==> extension[i] != CR)
    && |size| + |extension| + 2 <= MAX_HEADER_SIZE
  }

  predicate ChunkOk(c: Chunk) {
    SizeOk(c.size, c.extension) && Wrap(Hex(c.size)) == |c.data| && 0 < |c.data| < SIGN_LIMIT
  }

  function SizeLine(size: string, extension: string): string { size + extension + CRLF }

  function Encode(c: Chunk): string { SizeLine(c.size, c.extension) + c.data + CRLF }

  function EncodeAll(cs: seq<Chunk>): string {
    if cs == [] then [] else Encode(cs[0]) + EncodeAll(cs[1..])
  }

  function DataOf(cs: seq<Chunk>): string {
    if cs == [] then [] else cs[0].data + DataOf(cs[1..])
  }

  // ----- The size line -----

  /** One silent byte: the parser moves and tells nothing. */
  predicate Silent(q: Parser, s: string, q': Parser) {
    FreeFeed(q, s) == Consumed(q', [])
  }

  lemma SilentByte(q: Parser, s: string, q1: Parser, ch: char, q2: Parser)
    requires Silent(q, s, q1)
    requires FreeStep(q1, ch) == Next(q2, []) && Open(q2.state) == []
    ensures Silent(q, s + [ch], q2)
  {
    hide FreeStep, FreeFeed;
    FreeFeedSnoc(q, s, ch);
    OpenEventsAre([], ch);
  }

  lemma FirstDigit(q: Parser, ch: char)
    requires q.state.ChunkSizeStart? && q.flags.chunked && q.nread == 0 && Unhex(ch) >= 0
    ensures FreeStep(q, ch) == Next(q.(contentLength := Unhex(ch), state := ChunkSize, nread := 1), [])
  {
    hide Unhex;
  }

  lemma NextDigit(q: Parser, ch: char)
    requires q.state.ChunkSize? && q.flags.chunked && Unhex(ch) >= 0 && ch != CR
    ensures FreeStep(q, ch) ==
            Next(q.(contentLength := Wrap(q.contentLength * 16 + Unhex(ch)), nread := q.nread + 1), [])
  {
    hide Unhex, Wrap;
  }

  /** Chunk sizes: the stored length is the value of the digits modulo 2^64. */
  lemma HexSplit(s: string)
    requires s != [] && IsHex(s)
    ensures var t, ch := s[..|s| - 1], s[|s| - 1];
            Unhex(ch) >= 0 && Worth(ch) >= 0 && IsHex(t) && Hex(s) == 16 * Hex(t) + Unhex(ch)
    ensures Hex([]) == 0
  {
    hide Unhex, Worth;
    UnhexTable(s[|s| - 1]);
  }

  lemma {:induction false} SizeDigits(q: Parser, s: string)
    requires q.state.ChunkSizeStart? && q.flags.chunked && q.nread == 0
    requires s != [] && IsHex(s)
    ensures Silent(q, s, q.(contentLength := Wrap(Hex(s)), state := ChunkSize, nread := |s|))
    decreases |s|
  {
    hide FreeStep, Unhex, Wrap, Silent, Hex, IsHex, Worth;
    HexSplit(s);
    var t, ch := s[..|s| - 1], s[|s| - 1];
    assert s == t + [ch];
    if t == [] {
      FirstDigit(q, ch);
      SilentNothing(q);
      assert [] + [ch] == [ch] && s[..0] == [];
      SmallWrap(Unhex(ch));
      SilentByte(q, [], q, ch, q.(contentLength := Unhex(ch), state := ChunkSize, nread := 1));
    } else {
      SizeDigits(q, t);
      var q1 := q.(contentLength := Wrap(Hex(t)), state := ChunkSize, nread := |t|);
      HexNotBreak(ch);
      NextDigit(q1, ch);
      WrapStep(Hex(t), 16, Unhex(ch));
      SilentByte(q, t, q1, ch, q.(contentLength := Wrap(Hex(s)), state := ChunkSize, nread := |s|));
    }
  }

  lemma SilentNothing(q: Parser)
    ensures Silent(q, [], q)
  {
  }

  lemma SmallWrap(n: nat)
    requires n < 16
    ensures Wrap(n) == n
  {
  }

  lemma HexNotBreak(ch: char)
    requires Worth(ch) >= 0
    ensures ch != CR && ch != ';' && ch != ' '
  {
  }

  lemma ExtensionByte(q: Parser, ch: char)
    requires q.flags.chunked && ch != CR
    requires q.state.ChunkParameters? || (q.state.ChunkSize? && (ch == ';' || ch == ' '))
    ensures FreeStep(q, ch) == Next(q.(state := ChunkParameters, nread := q.nread + 1), [])
  {
  }

  /** Extensions are skipped, whatever they say. */
  lemma {:induction false} Extensions(q: Parser, s: string, e: string)
    requires s != [] && q.state.ChunkSizeStart? && q.flags.chunked && q.nread == 0 && IsHex(s)
    requires e != [] ==> e[0] == ';' || e[0] == ' '
    requires forall i :: 0 <= i < |e| ==> e[i] != CR
    ensures Silent(q, s + e, q.(contentLength := Wrap(Hex(s)), nread := |s| + |e|,
                                state := if e == [] then ChunkSize else ChunkParameters))
    decreases |e|
  {
    hide FreeStep, Wrap, Silent, IsHex, Hex;
    SizeDigits(q, s);
    if e == [] {
      assert s + e == s;
    } else {
      var t, ch := e[..|e| - 1], e[|e| - 1];
      Extensions(q, s, t);
      var q1 := q.(contentLength := Wrap(Hex(s)), nread := |s| + |t|,
                   state := if t == [] then ChunkSize else ChunkParameters);
      ExtensionByte(q1, ch);
      assert s + e == s + t + [ch];
      SilentByte(q, s + t, q1, ch, q1.(state := ChunkParameters, nread := q1.nread + 1));
    }
  }

  /** The parser after a size line: in the data, or in the trailers for size zero. */
  function AfterSize(q: Parser, n: nat): Parser {
    if n == 0
    then q.(contentLength := 0, nread := 0, flags := q.flags.(trailing := true), state := HeaderFieldStart)
    else q.(contentLength := n, nread := 0, state := ChunkData)
  }

  lemma SizeEnds(q: Parser)
    requires q.flags.chunked && (q.state.ChunkSize? || q.state.ChunkParameters?)
    ensures FreeStep(q, CR) == Next(q.(state := ChunkSizeAlmostDone, nread := q.nread + 1), [])
  {
  }

  lemma SizeOver(q: Parser)
    requires q.flags.chunked
    ensures FreeStep(q.(state := ChunkSizeAlmostDone), LF) == Next(AfterSize(q, q.contentLength), [])
  {
  }

  lemma SizeLineSilent(q: Parser, s: string, e: string)
    requires Inv(q) && q.state.ChunkSizeStart? && SizeOk(s, e)
    ensures Silent(q, SizeLine(s, e), AfterSize(q, Wrap(Hex(s))))
  {
    hide FreeStep, Wrap, Silent, IsHex, Hex, Inv, AfterSize;
    ChunkStart(q);
    Extensions(q, s, e);
    var q1 := q.(contentLength := Wrap(Hex(s)), nread := |s| + |e|,
                 state := if e == [] then ChunkSize else ChunkParameters);
    SizeEnds(q1);
    var q2 := q1.(state := ChunkSizeAlmostDone, nread := q1.nread + 1);
    SilentByte(q, s + e, q1, CR, q2);
    SizeOver(q1.(nread := q1.nread + 1));
    SameSize(q, q1.(nread := q1.nread + 1), Wrap(Hex(s)));
    SilentByte(q, s + e + [CR], q2, LF, AfterSize(q, Wrap(Hex(s))));
    assert SizeLine(s, e) == s + e + [CR] + [LF];
  }

  lemma SameSize(q: Parser, q1: Parser, n: nat)
    requires q1 == q.(contentLength := n, nread := q1.nread, state := q1.state)
    ensures AfterSize(q1, n) == AfterSize(q, n) && Open(AfterSize(q, n).state) == []
  {
  }

  lemma SizeLineRun(q: Parser, s: string, e: string)
    requires Inv(q) && q.state.ChunkSizeStart? && SizeOk(s, e)
    ensures Feed(q, SizeLine(s, e)) == Consumed(AfterSize(q, Wrap(Hex(s))), [])
  {
    hide FreeFeed, Wrap, Silent, IsHex, Hex, Inv, Feed, AfterSize;
    ChunkStart(q);
    SizeLineSilent(q, s, e);
    IsSilent(q, SizeLine(s, e), AfterSize(q, Wrap(Hex(s))));
    ShortFeed(q, SizeLine(s, e));
  }

  lemma IsSilent(q: Parser, s: string, q': Parser)
    requires Silent(q, s, q')
    ensures FreeFeed(q, s) == Consumed(q', [])
  {
  }

  lemma ChunkStart(q: Parser)
    requires Inv(q) && q.state.ChunkSizeStart?
    ensures q.flags.chunked && q.nread == 0
  {
  }

  // ----- Chunks -----

  lemma DataCR(q: Parser)
    requires q.state.ChunkDataAlmostDone? && q.flags.chunked
    ensures Step(q, CR) == Next(q.(state := ChunkDataDone), []) && Open(ChunkDataDone) == []
  {
  }

  lemma DataLF(q: Parser)
    requires q.state.ChunkDataDone? && q.flags.chunked
    ensures Step(q, LF) == Next(q.(state := ChunkSizeStart), []) && Open(ChunkSizeStart) == []
  {
  }

  lemma DataEnds(q: Parser)
    requires q.state.ChunkDataAlmostDone? && q.flags.chunked
    ensures Feed(q, CRLF) == Consumed(q.(state := ChunkSizeStart), [])
  {
    hide Step, Open;
    var q1 := q.(state := ChunkDataDone);
    DataCR(q);
    DataLF(q1);
    TwoSilent(q, CR, q1, LF, q.(state := ChunkSizeStart));
  }

  lemma TwoSilent(q: Parser, a: char, q1: Parser, b: char, q2: Parser)
    requires Step(q, a) == Next(q1, []) && Open(q1.state) == []
    requires Step(q1, b) == Next(q2, []) && Open(q2.state) == []
    ensures Feed(q, [a, b]) == Consumed(q2, [])
  {
    hide Step, Open;
    OpenEventsAre([], a);
    OpenEventsAre([], b);
    assert [a, b][1..] == [b];
    FeedOne(q1, b);
  }

  /** One chunk: exactly its data is delivered, and the next size line is awaited. */
  lemma ChunkRun(q: Parser, x: Inbox, c: Chunk)
    requires Inv(q) && q.state.ChunkSizeStart? && ChunkOk(c)
    ensures var r := Feed(q, Encode(c));
            && r.Consumed? && r.q == q.(contentLength := 0) && Inv(r.q)
            && Collect(x, r.events) == Receive(x, BodyData(c.data))
  {
    hide Feed, Inv, SizeOk, SizeLine, Hex, IsHex;
    ChunkStart(q);
    SizeLineRun(q, c.size, c.extension);
    var q1 := AfterSize(q, |c.data|);
    ChunkDataRun(q1, c.data, x);
    DataEnds(AfterChunkData(q1, |c.data|));
    FeedTwice(q, x, SizeLine(c.size, c.extension), c.data);
    FeedTwice(q, x, SizeLine(c.size, c.extension) + c.data, CRLF);
    FeedSafe(q, Encode(c));
  }

  lemma {:induction false} ChunksRun(q: Parser, x: Inbox, cs: seq<Chunk>)
    requires Inv(q) && q.state.ChunkSizeStart? && forall i :: 0 <= i < |cs| ==> ChunkOk(cs[i])
    ensures var r := Feed(q, EncodeAll(cs));
            && r.Consumed? && Inv(r.q) && r.q == q.(contentLength := r.q.contentLength)
            && Collect(x, r.events) == Inbox(x.done, WithBody(x.cur, DataOf(cs)))
    decreases |cs|
  {
    hide Feed, Inv, ChunkOk, Encode;
    if cs == [] {
      FeedEmpty(q);
      assert x.cur.body + [] == x.cur.body;
    } else {
      var rest := cs[1..];
      ChunkRun(q, x, cs[0]);
      var q1 := Feed(q, Encode(cs[0])).q;
      ChunksRun(q1, Receive(x, BodyData(cs[0].data)), rest);
      FeedTwice(q, x, Encode(cs[0]), EncodeAll(rest));
      assert x.cur.body + cs[0].data + DataOf(rest) == x.cur.body + (cs[0].data + DataOf(rest));
    }
  }

  function WithBody(m: Message, bytes: string): Message { m.(body := m.body + bytes) }

  // ----- The end of a header block -----

  lemma BlockSteps(q: Parser)
    requires q.state.HeaderFieldStart?
    ensures FreeStep(q, CR) == Next(q.(state := HeadersAlmostDone, nread := q.nread + 1), [])
    ensures FreeStep(q.(state := HeadersAlmostDone, nread := q.nread + 1), LF) ==
            EndOfHeaders(q.(state := HeadersAlmostDone, nread := q.nread + 2), LF)
  {
    hide EndOfHeaders;
  }

  lemma BlockEnd(q: Parser)
    requires Inv(q) && q.state.HeaderFieldStart? && q.nread + 2 <= MAX_HEADER_SIZE
    requires var o := EndOfHeaders(q.(state := HeadersAlmostDone, nread := q.nread + 2), LF);
             o.Next? && Open(o.q.state) == []
    ensures var o := EndOfHeaders(q.(state := HeadersAlmostDone, nread := q.nread + 2), LF);
            Feed(q, CRLF) == Consumed(o.q, SignalEvents(o.signals, LF))
  {
    hide FreeStep, EndOfHeaders, Open, Inv, Feed, SignalEvents;
    BlockSteps(q);
    var q1 := q.(state := HeadersAlmostDone, nread := q.nread + 1);
    var o := FreeStep(q1, LF);
    FreeFeedSnoc(q, [CR], LF);
    FreeFeedSnoc(q, [], CR);
    assert [] + [CR] == [CR] && [CR] + [LF] == CRLF;
    assert FreeFeed(q, []) == Consumed(q, []);
    NotOpen();
    OpenEventsAre([], CR);
    OpenEventsAre([], LF);
    OneSignal(CR);
    assert FreeFeed(q, [CR]) == Consumed(q1, []);
    assert SignalEvents(o.signals, LF) + [] == SignalEvents(o.signals, LF);
    ShortFeed(q, CRLF);
  }

  lemma NotOpen()
    ensures Open(HeadersAlmostDone) == []
  {
  }

  lemma OneSignal(ch: char)
    ensures SignalEvents([], ch) == []
  {
  }

  /** The trailers end the message. */
  lemma TrailerEnd(q: Parser, x: Inbox)
    requires Inv(q) && q.state.HeaderFieldStart? && q.flags.trailing && q.nread + 2 <= MAX_HEADER_SIZE
    ensures Feed(q, CRLF).Consumed?
    ensures Feed(q, CRLF).q == q.(state := NewMessage(q), nread := q.nread + 2)
    ensures Collect(x, Feed(q, CRLF).events) == Receive(x, Complete)
  {
    hide Feed, Inv, NewMessage, Receive;
    NewMessageState(q.(state := HeadersAlmostDone, nread := q.nread + 2));
    SameMessage(q, HeadersAlmostDone, q.nread + 2);
    BlockEnd(q);
    Notices(NO_MARKS, [], 0, SummaryOf(q));
    SameWithoutFlush([MessageComplete], NO_MARKS, [], 0, LF);
    Collect1(x, Complete);
  }

  lemma SameMessage(q: Parser, s: State, n: nat)
    ensures NewMessage(q.(state := s, nread := n)) == NewMessage(q)
  {
  }

  /** A run that consumed one whole message `m`, and left the parser `q` had become in
      state `s` with a header counter of at most `n`. */
  predicate Finished(r: Run, q: Parser, x: Inbox, s: State, n: nat, m: Message) {
    && r.Consumed? && Inv(r.q) && r.q.state == s
    && r.q.kind == q.kind && r.q.upgrade == q.upgrade && r.q.meth == q.meth && r.q.nread <= n
    && Collect(x, r.events) == Inbox(x.done + [m], EMPTY)
  }

  /** The parser with what the trailers say about the connection. */
  function WithTrailers(q: Parser, trailers: seq<HeaderLine>): Parser
    requires forall i :: 0 <= i < |trailers| ==> LineOk(trailers[i])
  {
    WithFields(q, LinesFields(Unsized(FieldsOf(q)), trailers))
  }

  /** The zero chunk with its trailers, then the empty line. */
  function LastChunk(zero: string, extension: string, trailers: seq<HeaderLine>): string {
    SizeLine(zero, extension) + (PrintLines(trailers) + CRLF)
  }

  lemma LastChunkRun(q: Parser, x: Inbox, zero: string, extension: string, trailers: seq<HeaderLine>)
    requires Inv(q) && q.state.ChunkSizeStart? && !x.cur.lastIsField
    requires SizeOk(zero, extension) && Wrap(Hex(zero)) == 0
    requires (forall i :: 0 <= i < |trailers| ==> LineOk(trailers[i])) && |PrintLines(trailers)| + 2 <= MAX_HEADER_SIZE
    ensures Finished(Feed(q, LastChunk(zero, extension, trailers)), q, x, NewMessage(WithTrailers(q, trailers)),
                     |PrintLines(trailers)| + 2, WithLines(x.cur, trailers))
  {
    hide Feed, Inv, SizeOk, SizeLine, Hex, LineOk, PrintLines, FreeFeed, WithLines, NewMessage, Apply, LinesFields;
    var text := PrintLines(trailers);
    SizeLineRun(q, zero, extension);
    FeedSafe(q, SizeLine(zero, extension));
    var q1 := AfterSize(q, 0);
    LinesRun(q1, FieldsOf(q1), x, trailers);
    ShortFeed(q1, text);
    var q2 := Feed(q1, text).q;
    var y := Collect(x, Feed(q1, text).events);
    CountsUpTo(q1, text);
    SameFlagsNewMessage(WithFields(q, LinesFields(FieldsOf(q1), trailers)), q2);
    TrailerEnd(q2, y);
    FeedTwice(q1, x, text, CRLF);
    FeedTwice(q, x, SizeLine(zero, extension), text + CRLF);
    FeedSafe(q, LastChunk(zero, extension, trailers));
  }

  lemma SameFlagsNewMessage(q1: Parser, q2: Parser)
    requires q1.kind == q2.kind && q1.httpMajor == q2.httpMajor && q1.httpMinor == q2.httpMinor
    requires q1.flags.keepAlive == q2.flags.keepAlive && q1.flags.close == q2.flags.close
    ensures NewMessage(q1) == NewMessage(q2)
  {
  }

  /** Decoding inverts encoding: whatever sizes, extensions and trailers the sender
      writes, and whatever length was declared before, the body the application
      collects is the concatenation of the chunks, and the message completes once. */
  lemma ChunkedBody(q: Parser, x: Inbox, cs: seq<Chunk>, zero: string, extension: string, trailers: seq<HeaderLine>)
    requires Inv(q) && q.state.ChunkSizeStart? && !x.cur.lastIsField
    requires forall i :: 0 <= i < |cs| ==> ChunkOk(cs[i])
    requires SizeOk(zero, extension) && Wrap(Hex(zero)) == 0
    requires (forall i :: 0 <= i < |trailers| ==> LineOk(trailers[i])) && |PrintLines(trailers)| + 2 <= MAX_HEADER_SIZE
    ensures Finished(Feed(q, EncodeAll(cs) + LastChunk(zero, extension, trailers)), q, x,
                     NewMessage(WithTrailers(q, trailers)), |PrintLines(trailers)| + 2,
                     WithLines(WithBody(x.cur, DataOf(cs)), trailers))
  {
    hide Feed, Inv, SizeOk, Hex, LineOk, ChunkOk, LastChunk, EncodeAll, PrintLines, NewMessage, LinesFields;
    ChunksRun(q, x, cs);
    var q1 := Feed(q, EncodeAll(cs)).q;
    LastChunkRun(q1, Collect(x, Feed(q, EncodeAll(cs)).events), zero, extension, trailers);
    SameFlagsNewMessage(WithTrailers(q1, trailers), WithTrailers(q, trailers));
    FeedTwice(q, x, EncodeAll(cs), LastChunk(zero, extension, trailers));
  }
}
