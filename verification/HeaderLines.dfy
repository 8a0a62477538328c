/** Header lines as text: what the parser makes of a printed line, for the flags and
    for the list of headers the application collects. */
module HeaderLines {
  import opened Spelling
  import opened Syntax
  import opened Machine
  import opened Messages
  import opened Marks
  import opened Frames
  import opened Invariant
  import opened Split
  import opened Headers

  /** `name:`, some spaces, `value`, and the line end: LF alone if `bare`, else CR LF. */
  datatype HeaderLine = HeaderLine(name: string, spaces: nat, value: string, bare: bool)

  predicate NoBreak(s: string) { forall i :: 0 <= i < |s| ==> s[i] != CR && s[i] != LF }

  predicate LineOk(h: HeaderLine) {
    && h.name != [] && (forall i :: 0 <= i < |h.name| ==> IsToken(h.name[i]))
    && NoBreak(h.value)
    && (h.value != [] ==> h.value[0] != ' ')
    && (NameIs(h.name, CONTENT_LENGTH) ==> IsNumeral(h.value))
  }

  function Spaces(n: nat): string { seq(n, i requires 0 <= i < n => ' ') }

  const CRLF: string := [CR, LF]

  function LineEnd(bare: bool): string { if bare then [LF] else CRLF }

  function PrintLine(h: HeaderLine): string {
    h.name + [':'] + Spaces(h.spaces) + h.value + LineEnd(h.bare)
  }

  function PrintLines(hs: seq<HeaderLine>): string {
    if hs == [] then [] else PrintLine(hs[0]) + PrintLines(hs[1..])
  }

  /** The framing fields after one printed line: a line without a value says nothing. */
  function LineFields(f: Fields, h: HeaderLine): Fields
    requires LineOk(h)
  {
    if h.value == [] then f else Apply(f, h.name, h.value)
  }

  function LinesFields(f: Fields, hs: seq<HeaderLine>): Fields
    requires forall i :: 0 <= i < |hs| ==> LineOk(hs[i])
    decreases |hs|
  {
    if hs == [] then f else LinesFields(LineFields(f, hs[0]), hs[1..])
  }

  // ----- What the application has collected of the line being read -----

  /** `m` is the message before the line; after the CR it is the message with the line. */
  predicate Collected(line: Line, m: Message, cur: Message) {
    match line
    case LineStart => cur == m
    case InName(n) => cur == m.(headers := m.headers + [Header(n, "")], lastIsField := true)
    case BeforeValue(n) => cur == m.(headers := m.headers + [Header(n, "")], lastIsField := true)
    case InValue(n, v) => cur == m.(headers := m.headers + [Header(n, v)], lastIsField := false)
    case AfterCR => cur == m
  }

  lemma FieldByte(m: Message, n: string, ch: char)
    requires !m.lastIsField
    ensures AddField(m, [ch]) == m.(headers := m.headers + [Header([ch], "")], lastIsField := true)
    ensures AddField(m.(headers := m.headers + [Header(n, "")], lastIsField := true), [ch])
            == m.(headers := m.headers + [Header(n + [ch], "")], lastIsField := true)
    ensures AddField(m.(headers := m.headers + [Header(n, "")], lastIsField := true), [])
            == m.(headers := m.headers + [Header(n, "")], lastIsField := true)
  {
    var hs := m.headers + [Header(n, "")];
    assert n + [] == n;
    assert hs[|hs| - 1 := Header(n + [ch], "")] == m.headers + [Header(n + [ch], "")];
    assert hs[|hs| - 1 := Header(n, "")] == hs;
  }

  lemma ValuePart(m: Message, n: string, v: string, w: string, last: bool)
    ensures AddValue(m.(headers := m.headers + [Header(n, v)], lastIsField := last), w)
            == m.(headers := m.headers + [Header(n, v + w)], lastIsField := false)
  {
    var hs := m.headers + [Header(n, v)];
    assert hs[|hs| - 1 := Header(n, v + w)] == m.headers + [Header(n, v + w)];
  }

  /** The events of a byte in a header line, as a single callback. */
  lemma LineEvents(q: Parser, signals: seq<Signal>, ch: char, k: Slice)
    ensures signals == [] && Open(q.state) == [k] ==> ByteEvents(q, signals, ch) == [Data(k, [ch])]
    ensures signals == [Flush(k)] && Open(q.state) == [] ==> ByteEvents(q, signals, ch) == [Data(k, [])]
    ensures signals == [] && Open(q.state) == [] ==> ByteEvents(q, signals, ch) == []
  {
    hide Open;
    OneFlush(k, NO_MARKS, [], 0, ch);
    OpenEventsAre(Open(q.state), ch);
  }

  function EventsOf(o: Outcome, ch: char): seq<Event> {
    if o.Next? then ByteEvents(o.q, o.signals, ch) else []
  }

  lemma NameEvents(q: Parser, ch: char)
    requires q.state.HeaderFieldStart? || q.state.HeaderField?
    requires IsToken(ch) && ch != CR && ch != LF
    ensures var o := FreeStep(q, ch); o.Next? ==> EventsOf(o, ch) == [Data(Field, [ch])]
  {
    hide StartByte, StatusLineByte, UrlByte, RequestVersionByte, HeaderValueByte, BodyStep, EndOfHeaders, NameByte,
         Token, ByteEvents;
    var c := Count(q);
    var o := HeaderNameByte(c, ch);
    if q.state.HeaderField? { NameKeeps(c, ch); NameQuiet(c, ch); }
    if o.Next? { LineEvents(o.q, o.signals, ch, Field); }
  }

  lemma NameQuiet(q: Parser, ch: char)
    ensures var o := NameByte(q, ch, Token(ch)); o.Next? ==> o.signals == []
  {
    hide Token;
  }

  lemma ColonEvents(q: Parser)
    requires q.state.HeaderField?
    ensures EventsOf(FreeStep(q, ':'), ':') == [Data(Field, [])]
  {
    hide StartByte, StatusLineByte, UrlByte, RequestVersionByte, HeaderValueByte, BodyStep, EndOfHeaders, NameByte,
         ByteEvents;
    var o := HeaderNameByte(Count(q), ':');
    LineEvents(o.q, o.signals, ':', Field);
  }

  /** What a byte after the colon tells: nothing, or the end of the value, or one byte of it. */
  lemma ValueSignals(q: Parser, ch: char)
    requires InHeaderValue(q.state)
    ensures var o := HeaderValueByte(q, ch);
            o.Next? ==>
              if q.state.HeaderAlmostDone? || (q.state.HeaderValueStart? && ch == ' ')
              then o.signals == [] && Open(o.q.state) == []
              else if ch == CR || ch == LF then o.signals == [Flush(Value)] && Open(o.q.state) == []
              else o.signals == [] && Open(o.q.state) == [Value]
  {
    hide FirstValueByte, ValueByte, EndOfValue, Lower;
    FirstValueFrame(q, ch);
    EndOfValueFrame(q, []);
    EndOfValueFrame(q, [Flush(Value)]);
    ValueKeeps(q, ch);
    ValueQuiet(q, ch);
  }

  lemma ValueEvents(q: Parser, ch: char)
    requires InHeaderValue(q.state)
    ensures var o := FreeStep(q, ch);
            o.Next? ==>
              EventsOf(o, ch) ==
              if q.state.HeaderAlmostDone? || (q.state.HeaderValueStart? && ch == ' ') then []
              else [Data(Value, if ch == CR || ch == LF then [] else [ch])]
  {
    hide StartByte, StatusLineByte, UrlByte, RequestVersionByte, HeaderNameByte, HeaderValueByte, BodyStep, EndOfHeaders,
         ByteEvents, Open;
    var c := Count(q);
    ValueSignals(c, ch);
    var o := HeaderValueByte(c, ch);
    if o.Next? { LineEvents(o.q, o.signals, ch, Value); }
  }

  lemma ValueQuiet(q: Parser, ch: char)
    ensures var o := ValueByte(q, ch); o.Next? ==> o.signals == []
  {
    hide Lower;
  }

  /** A header line leaves everything else as it is. */
  predicate SameRest(q: Parser, q': Parser) {
    && q' == q.(state := q'.state, headerState := q'.headerState, index := q'.index, nread := q'.nread,
                contentLength := q'.contentLength, flags := q'.flags)
    && q'.flags.trailing == q.flags.trailing
  }

  lemma NameKeepsRest(q: Parser, ch: char)
    requires InHeaderName(q.state) && (q.state.HeaderFieldStart? ==> ch != CR && ch != LF)
    ensures var o := HeaderNameByte(q, ch); o.Next? ==> SameRest(q, o.q) && o.q.nread == q.nread
  {
    hide EndOfHeaders, NameByte, Token;
    NameKeeps(q, ch);
  }

  lemma ValueKeepsRest(q: Parser, ch: char)
    requires InHeaderValue(q.state)
    ensures var o := HeaderValueByte(q, ch); o.Next? ==> SameRest(q, o.q) && o.q.nread == q.nread
  {
    hide FirstValueByte, ValueByte, EndOfValue;
    FirstValueFrame(q, ch);
    EndOfValueFrame(q, []);
    EndOfValueFrame(q, [Flush(Value)]);
    ValueKeeps(q, ch);
  }

  lemma LineKeepsRest(q: Parser, ch: char)
    requires q.state.HeaderFieldStart? ==> ch != CR && ch != LF
    requires InHeaderName(q.state) || InHeaderValue(q.state)
    ensures var o := FreeStep(q, ch); o.Next? ==> SameRest(q, o.q) && o.q.nread == q.nread + 1
  {
    hide StartByte, StatusLineByte, UrlByte, RequestVersionByte, BodyStep, EndOfHeaders, HeaderNameByte, HeaderValueByte;
    var c := Count(q);
    if InHeaderName(q.state) { NameKeepsRest(c, ch); } else { ValueKeepsRest(c, ch); }
  }

  /** The message when the line is over. */
  function LineOver(line: Line, m: Message): Message {
    match line
    case BeforeValue(n) => m.(headers := m.headers + [Header(n, "")], lastIsField := false)
    case InValue(n, v) => m.(headers := m.headers + [Header(n, v)], lastIsField := false)
    case _ => m
  }

  predicate IsOver(line: Line) { line.LineStart? || line.AfterCR? }

  /** One byte of a header line that is not the end of a bare name. */
  lemma LineByte(q: Parser, line: Line, f: Fields, x: Inbox, m: Message, ch: char)
    requires Stands(q, line, f) && !m.lastIsField && Collected(line, m, x.cur)
    requires line.InName? ==> ch != CR && ch != LF
    requires ReadByte(line, f, ch).Reading?
    ensures var o, r := FreeStep(q, ch), ReadByte(line, f, ch);
            && o.Next? && Stands(o.q, r.line, r.fields)
            && var y := Collect(x, EventsOf(o, ch));
               && y.done == x.done
               && Collected(r.line, if IsOver(r.line) then LineOver(line, m) else m, y.cur)
  {
    hide FreeStep, Stands, ByteEvents, AddField, AddValue, Token, NameIs;
    HeaderByte(q, line, f, ch);
    StandsState(q, line, f);
    match line
    case LineStart =>
      NameEvents(q, ch);
      Collect1(x, Data(Field, [ch]));
      FieldByte(m, [], ch);
    case InName(n) =>
      FieldByte(m, n, ch);
      if IsToken(ch) {
        NameEvents(q, ch);
        Collect1(x, Data(Field, [ch]));
      } else {
        ColonEvents(q);
        Collect1(x, Data(Field, []));
      }
    case BeforeValue(n) =>
      ValueEvents(q, ch);
      ValuePart(m, n, [], [], true);
      ValuePart(m, n, [], [ch], true);
      assert [] + [ch] == [ch] && "" + "" == "";
      Collect1(x, Data(Value, []));
      Collect1(x, Data(Value, [ch]));
    case InValue(n, v) =>
      ValueEvents(q, ch);
      ValuePart(m, n, v, [], false);
      ValuePart(m, n, v, [ch], false);
      assert v + [] == v;
      Collect1(x, Data(Value, []));
      Collect1(x, Data(Value, [ch]));
    case AfterCR =>
      ValueEvents(q, ch);
  }

  lemma StandsState(q: Parser, line: Line, f: Fields)
    requires Stands(q, line, f)
    ensures match line
            case LineStart => q.state.HeaderFieldStart?
            case InName(_) => q.state.HeaderField?
            case BeforeValue(_) => q.state.HeaderValueStart?
            case InValue(_, _) => q.state.HeaderValue?
            case AfterCR => q.state.HeaderAlmostDone?
    ensures WellRead(line)
  {
    hide NameState;
  }

  // ----- Printed lines -----

  /** After `s` the parser and the application are in the middle of a line, and each byte has
      been counted. */
  predicate Mid(q: Parser, x: Inbox, s: string, line: Line, f: Fields, m: Message) {
    var r := FreeFeed(q, s);
    && r.Consumed? && Stands(r.q, line, f) && SameRest(q, r.q) && r.q.nread == q.nread + |s| && !m.lastIsField
    && var y := Collect(x, r.events);
       y.done == x.done && Collected(line, m, y.cur)
  }

  lemma ReadsOn(line: Line, f: Fields, ch: char)
    requires WellRead(line) && ReadByte(line, f, ch).Reading?
    ensures line.LineStart? ==> ch != CR && ch != LF
  {
  }

  lemma MidStep(q: Parser, x: Inbox, s: string, line: Line, f: Fields, m: Message, ch: char)
    requires Mid(q, x, s, line, f, m) && WellRead(line)
    requires line.InName? ==> ch != CR && ch != LF
    requires ReadByte(line, f, ch).Reading?
    ensures var r := ReadByte(line, f, ch);
            Mid(q, x, s + [ch], r.line, r.fields, if IsOver(r.line) then LineOver(line, m) else m)
  {
    hide FreeStep, FreeFeed, Stands, Collected, Collect, ReadByte, ByteEvents;
    FreeFeedSnoc(q, s, ch);
    var r := FreeFeed(q, s);
    var y := Collect(x, r.events);
    LineByte(r.q, line, f, y, m, ch);
    StandsState(r.q, line, f);
    ReadsOn(line, f, ch);
    LineKeepsRest(r.q, ch);
    var o := FreeStep(r.q, ch);
    CollectAppend(x, r.events, EventsOf(o, ch));
  }

  lemma {:induction false} MidName(q: Parser, f: Fields, x: Inbox, n: string)
    requires Stands(q, LineStart, f) && !x.cur.lastIsField
    requires n != [] && forall i :: 0 <= i < |n| ==> IsToken(n[i])
    ensures Mid(q, x, n, InName(n), f, x.cur)
    decreases |n|
  {
    hide Stands, Token, FreeStep;
    var t, ch := n[..|n| - 1], n[|n| - 1];
    assert n == t + [ch];
    TokenBreaks(ch);
    if t == [] {
      assert Mid(q, x, [], LineStart, f, x.cur);
      MidStep(q, x, [], LineStart, f, x.cur, ch);
      assert [] + [ch] == [ch];
    } else {
      MidName(q, f, x, t);
      MidStep(q, x, t, InName(t), f, x.cur, ch);
    }
  }

  lemma TokenBreaks(ch: char)
    requires IsToken(ch)
    ensures ch != CR && ch != LF && ch != ':'
  {
  }

  lemma ColonNoToken()
    ensures !IsToken(':')
  {
  }

  lemma {:induction false} MidSpaces(q: Parser, f: Fields, x: Inbox, n: string, k: nat)
    requires Stands(q, LineStart, f) && !x.cur.lastIsField
    requires n != [] && forall i :: 0 <= i < |n| ==> IsToken(n[i])
    ensures Mid(q, x, n + [':'] + Spaces(k), BeforeValue(n), f, x.cur)
    decreases k
  {
    hide Mid, Stands, Token;
    if k == 0 {
      MidName(q, f, x, n);
      ColonNoToken();
      MidStep(q, x, n, InName(n), f, x.cur, ':');
      assert n + [':'] + Spaces(0) == n + [':'];
    } else {
      MidSpaces(q, f, x, n, k - 1);
      MidStep(q, x, n + [':'] + Spaces(k - 1), BeforeValue(n), f, x.cur, ' ');
      assert n + [':'] + Spaces(k) == n + [':'] + Spaces(k - 1) + [' '];
    }
  }

  lemma {:induction false} MidValue(q: Parser, f: Fields, x: Inbox, h: HeaderLine, j: nat)
    requires Stands(q, LineStart, f) && !x.cur.lastIsField && LineOk(h) && 0 < j <= |h.value|
    ensures Mid(q, x, h.name + [':'] + Spaces(h.spaces) + h.value[..j], InValue(h.name, h.value[..j]), f, x.cur)
    decreases j
  {
    hide Mid, Stands, Token, NameIs;
    var before := h.name + [':'] + Spaces(h.spaces);
    var ch := h.value[j - 1];
    assert h.value[..j] == h.value[..j - 1] + [ch];
    if j == 1 {
      MidSpaces(q, f, x, h.name, h.spaces);
      MidStep(q, x, before, BeforeValue(h.name), f, x.cur, ch);
      assert h.value[..1] == [ch];
    } else {
      MidValue(q, f, x, h, j - 1);
      MidStep(q, x, before + h.value[..j - 1], InValue(h.name, h.value[..j - 1]), f, x.cur, ch);
      assert before + h.value[..j] == before + h.value[..j - 1] + [ch];
    }
  }

  /** A printed line adds its name and value to the headers, byte for byte, and acts on
      the framing fields as the plain comparison says. */
  lemma LineRun(q: Parser, f: Fields, x: Inbox, h: HeaderLine)
    requires Stands(q, LineStart, f) && !x.cur.lastIsField && LineOk(h)
    ensures Mid(q, x, PrintLine(h), LineStart, LineFields(f, h),
                WithLine(x.cur, h))
  {
    hide Mid, Stands, Token, NameIs, Apply;
    var m := WithLine(x.cur, h);
    var text := h.name + [':'] + Spaces(h.spaces) + h.value;
    var g := LineFields(f, h);
    var line := if h.value == [] then BeforeValue(h.name) else InValue(h.name, h.value);
    if h.value == [] {
      MidSpaces(q, f, x, h.name, h.spaces);
      assert text == h.name + [':'] + Spaces(h.spaces);
    } else {
      MidValue(q, f, x, h, |h.value|);
      assert h.value[..|h.value|] == h.value;
    }
    if h.bare {
      MidStep(q, x, text, line, f, x.cur, LF);
    } else {
      MidStep(q, x, text, line, f, x.cur, CR);
      MidStep(q, x, text + [CR], AfterCR, g, m, LF);
      assert PrintLine(h) == text + [CR] + [LF];
    }
  }

  /** The message with one more complete header. */
  function WithLine(m: Message, h: HeaderLine): Message {
    m.(headers := m.headers + [Header(h.name, h.value)], lastIsField := false)
  }

  function WithLines(m: Message, hs: seq<HeaderLine>): Message
    decreases |hs|
  {
    if hs == [] then m
    else WithLines(WithLine(m, hs[0]), hs[1..])
  }

  lemma {:induction false} LinesRun(q: Parser, f: Fields, x: Inbox, hs: seq<HeaderLine>)
    requires Stands(q, LineStart, f) && !x.cur.lastIsField
    requires forall i :: 0 <= i < |hs| ==> LineOk(hs[i])
    ensures Mid(q, x, PrintLines(hs), LineStart, LinesFields(f, hs), WithLines(x.cur, hs))
    decreases |hs|
  {
    hide Stands, LineOk, PrintLine, LineFields, FreeStep;
    if hs != [] {
      LineRun(q, f, x, hs[0]);
      var r := FreeFeed(q, PrintLine(hs[0]));
      var y := Collect(x, r.events);
      LinesRun(r.q, LineFields(f, hs[0]), y, hs[1..]);
      FreeFeedAppend(q, PrintLine(hs[0]), PrintLines(hs[1..]));
      CollectAppend(x, r.events, FreeFeed(r.q, PrintLines(hs[1..])).events);
    }
  }

  /** The fields after the zero chunk, before the trailers. */
  function Unsized(f: Fields): Fields { f.(length := 0) }

  /** The parser with the framing fields a header block gave it. */
  function WithFields(q: Parser, g: Fields): Parser {
    q.(flags := Flags(g.chunked, g.keepAlive, g.close, q.flags.trailing, g.upgrade), contentLength := g.length)
  }

  // ----- Which lines set which flag -----

  predicate Says(h: HeaderLine, name: string, value: string) {
    h.value != [] && NameIs(h.name, name) && ValueIs(h.value, value)
  }

  predicate SomeLine(hs: seq<HeaderLine>, name: string, value: string) {
    exists i :: 0 <= i < |hs| && Says(hs[i], name, value)
  }

  predicate SomeUpgrade(hs: seq<HeaderLine>) {
    exists i :: 0 <= i < |hs| && hs[i].value != [] && NameIs(hs[i].name, "upgrade")
  }

  lemma ContentLine(h: HeaderLine)
    requires LineOk(h)
    ensures NameIs(h.name, "content-length") ==> IsNumeral(h.value)
  {
    hide NameIs;
  }

  /** The length that was declared last, modulo 2^64; `n` if none was. */
  function LastLength(n: nat, hs: seq<HeaderLine>): nat
    requires forall i :: 0 <= i < |hs| ==> LineOk(hs[i])
    decreases |hs|
  {
    if hs == [] then n
    else if hs[0].value != [] && NameIs(hs[0].name, "content-length") then
      ContentLine(hs[0]);
      LastLength(Decimal(hs[0].value) % 0x1_0000_0000_0000_0000, hs[1..])
    else LastLength(n, hs[1..])
  }

  /** Each flag is set after the lines exactly when it was set before or some line says so,
      and the length is the one declared last. */
  predicate FlagsAre(f: Fields, hs: seq<HeaderLine>, g: Fields)
    requires forall i :: 0 <= i < |hs| ==> LineOk(hs[i])
  {
    && (g.chunked <==> f.chunked || SomeLine(hs, "transfer-encoding", "chunked"))
    && (g.keepAlive <==> f.keepAlive || SomeLine(hs, "connection", "keep-alive") || SomeLine(hs, "proxy-connection", "keep-alive"))
    && (g.close <==> f.close || SomeLine(hs, "connection", "close") || SomeLine(hs, "proxy-connection", "close"))
    && (g.upgrade <==> f.upgrade || SomeUpgrade(hs))
    && g.length == LastLength(f.length, hs)
  }

  lemma {:induction false} FlagsExactly(f: Fields, hs: seq<HeaderLine>)
    requires forall i :: 0 <= i < |hs| ==> LineOk(hs[i])
    ensures FlagsAre(f, hs, LinesFields(f, hs))
    decreases |hs|
  {
    hide LineOk, NameIs, ValueIs, SomeLine, SomeUpgrade, Decimal;
    if hs == [] {
      SomeCons(hs);
    } else {
      ContentLine(hs[0]);
      FlagsExactly(LineFields(f, hs[0]), hs[1..]);
      SomeCons(hs);
    }
  }

  /** Names and values count in any mixture of capitals and small letters, and whatever
      spaces follow them. */
  lemma AnyCase(f: Fields, h: HeaderLine, name: string, value: string)
    requires LineOk(h) && TrimRight(h.name) == name && TrimRight(h.value) == value && value != []
    ensures var g := LineFields(f, h);
            && (SameLetters(name, "connection") && SameLetters(value, "keep-alive") ==> g.keepAlive)
            && (SameLetters(name, "connection") && SameLetters(value, "close") ==> g.close)
            && (SameLetters(name, "proxy-connection") && SameLetters(value, "keep-alive") ==> g.keepAlive)
            && (SameLetters(name, "proxy-connection") && SameLetters(value, "close") ==> g.close)
            && (SameLetters(name, "transfer-encoding") && SameLetters(value, "chunked") ==> g.chunked)
            && (SameLetters(name, "upgrade") ==> g.upgrade)
  {
    hide SameLetters, Decimal, LineOk;
    assert h.value != [];
  }

  lemma SomeCons(hs: seq<HeaderLine>)
    ensures forall n, v :: SomeLine(hs, n, v) <==> hs != [] && (Says(hs[0], n, v) || SomeLine(hs[1..], n, v))
    ensures SomeUpgrade(hs) <==>
              hs != [] && ((hs[0].value != [] && NameIs(hs[0].name, "upgrade")) || SomeUpgrade(hs[1..]))
  {
    hide NameIs, ValueIs;
    if hs != [] {
      forall n, v ensures SomeLine(hs, n, v) <==> Says(hs[0], n, v) || SomeLine(hs[1..], n, v) {
        if SomeLine(hs, n, v) {
          var i :| 0 <= i < |hs| && Says(hs[i], n, v);
          if i > 0 { assert Says(hs[1..][i - 1], n, v); }
        }
        if SomeLine(hs[1..], n, v) {
          var i :| 0 <= i < |hs[1..]| && Says(hs[1..][i], n, v);
          assert Says(hs[i + 1], n, v);
        }
      }
      if SomeUpgrade(hs) {
        var i :| 0 <= i < |hs| && hs[i].value != [] && NameIs(hs[i].name, "upgrade");
        if i > 0 { assert hs[1..][i - 1] == hs[i]; }
      }
      if SomeUpgrade(hs[1..]) {
        var i :| 0 <= i < |hs[1..]| && hs[1..][i].value != [] && NameIs(hs[1..][i].name, "upgrade");
        assert hs[i + 1] == hs[1..][i];
      }
    }
  }

  // ----- The lines of any header block -----

  /** How many bytes come before the first `ch`. */
  function Before(ch: char, s: string): (n: nat)
    ensures n <= |s| && (forall i :: 0 <= i < n ==> s[i] != ch) && (n < |s| ==> s[n] == ch)
  {
    if s == [] || s[0] == ch then 0 else 1 + Before(ch, s[1..])
  }

  function LeadingSpaces(s: string): (n: nat)
    ensures n <= |s| && (forall i :: 0 <= i < n ==> s[i] == ' ') && (n < |s| ==> s[n] != ' ')
  {
    if s == [] || s[0] != ' ' then 0 else 1 + LeadingSpaces(s[1..])
  }

  /** The name is what comes before the first colon, the value what comes after it and the
      spaces. */
  function HeaderOf(text: string, bare: bool): HeaderLine {
    var n := Before(':', text);
    if n == |text| then HeaderLine(text, 0, "", bare)
    else
      var after := text[n + 1..];
      var k := LeadingSpaces(after);
      HeaderLine(text[..n], k, after[k..], bare)
  }

  /** A line without its LF: a CR at the end belongs to neither the name nor the value. */
  function Parse(line: string): HeaderLine {
    if line == [] || line[|line| - 1] != CR then HeaderOf(line, true) else HeaderOf(line[..|line| - 1], false)
  }

  /** The lines of a text, each up to its LF. */
  function LinesOf(s: string): seq<HeaderLine>
    decreases |s|
  {
    var n := Before(LF, s);
    if n == |s| then [] else [Parse(s[..n])] + LinesOf(s[n + 1..])
  }

  lemma {:induction false} BeforeIs(ch: char, a: string, b: string)
    requires (forall i :: 0 <= i < |a| ==> a[i] != ch) && (b == [] || b[0] == ch)
    ensures Before(ch, a + b) == |a|
    decreases |a|
  {
    if a == [] {
      assert a + b == b;
    } else {
      assert (a + b)[1..] == a[1..] + b;
      BeforeIs(ch, a[1..], b);
    }
  }

  lemma LinesCons(t: string, rest: string)
    requires forall i :: 0 <= i < |t| ==> t[i] != LF
    ensures LinesOf(t + [LF] + rest) == [Parse(t)] + LinesOf(rest)
  {
    hide Parse;
    assert t + [LF] + rest == t + ([LF] + rest);
    BeforeIs(LF, t, [LF] + rest);
    assert (t + [LF] + rest)[..|t|] == t && (t + [LF] + rest)[|t| + 1..] == rest;
  }

  lemma {:induction false} SpacesIs(k: nat, v: string)
    requires v == [] || v[0] != ' '
    ensures LeadingSpaces(Spaces(k) + v) == k
    decreases k
  {
    if k == 0 {
      assert Spaces(0) + v == v;
    } else {
      assert (Spaces(k) + v)[1..] == Spaces(k - 1) + v;
      SpacesIs(k - 1, v);
    }
  }

  predicate TokenName(n: string) { n != [] && forall i :: 0 <= i < |n| ==> IsToken(n[i]) }

  lemma NameBytes(n: string)
    requires TokenName(n)
    ensures forall i :: 0 <= i < |n| ==> n[i] != ':' && n[i] != CR && n[i] != LF
  {
    hide IsToken;
    forall i | 0 <= i < |n| ensures n[i] != ':' && n[i] != CR && n[i] != LF { TokenBreaks(n[i]); }
  }

  lemma Ending(text: string)
    requires NoBreak(text)
    ensures Parse(text) == HeaderOf(text, true) && Parse(text + [CR]) == HeaderOf(text, false)
  {
    hide HeaderOf;
    assert (text + [CR])[..|text|] == text;
  }

  lemma WholeText(n: string, k: nat, v: string)
    requires TokenName(n) && NoBreak(v)
    ensures NoBreak(n + [':'] + Spaces(k) + v)
  {
    NameBytes(n);
  }

  lemma Pieces(n: string, rest: string, bare: bool, k: nat, v: string)
    requires TokenName(n) && rest == Spaces(k) + v && (v != [] ==> v[0] != ' ')
    ensures HeaderOf(n + ([':'] + rest), bare) == HeaderLine(n, k, v, bare)
  {
    hide IsToken, Spaces;
    NameBytes(n);
    BeforeIs(':', n, [':'] + rest);
    SpacesIs(k, v);
    var text := n + ([':'] + rest);
    assert text[..|n|] == n && text[|n| + 1..] == rest;
    AfterSpaces(k, v);
  }

  lemma AfterSpaces(k: nat, v: string)
    ensures |Spaces(k)| == k && (Spaces(k) + v)[k..] == v
  {
  }

  /** A line with a colon, and its line end. */
  lemma ParseText(text: string, n: string, k: nat, v: string)
    requires TokenName(n) && NoBreak(v) && (v != [] ==> v[0] != ' ')
    requires text == n + [':'] + Spaces(k) + v
    ensures Parse(text) == HeaderLine(n, k, v, true) && Parse(text + [CR]) == HeaderLine(n, k, v, false)
    ensures NoBreak(text)
  {
    hide IsToken, Parse, HeaderOf, NoBreak, Spaces, TokenName;
    WholeText(n, k, v);
    Ending(text);
    assert text == n + ([':'] + (Spaces(k) + v));
    Pieces(n, Spaces(k) + v, true, k, v);
    Pieces(n, Spaces(k) + v, false, k, v);
  }

  lemma ParseName(n: string)
    requires TokenName(n)
    ensures Parse(n) == HeaderLine(n, 0, "", true) && Parse(n + [CR]) == HeaderLine(n, 0, "", false)
    ensures NoBreak(n)
  {
    hide IsToken, Parse;
    NameBytes(n);
    Ending(n);
    BeforeIs(':', n, []);
    assert n + [] == n;
  }

  /** The reader has read the bytes `t` of a line; `f0` is what the lines before it said. */
  predicate Holds(line: Line, t: string, k: nat, f0: Fields, f: Fields) {
    match line
    case LineStart => t == [] && f == f0
    case InName(n) => t == n && f == f0
    case BeforeValue(n) => t == n + [':'] + Spaces(k) && f == f0
    case InValue(n, v) => t == n + [':'] + Spaces(k) + v && v != [] && v[0] != ' ' && NoBreak(v) && f == f0
    case AfterCR => t != [] && t[|t| - 1] == CR && (forall i :: 0 <= i < |t| ==> t[i] != LF)
                    && LineOk(Parse(t)) && f == LineFields(f0, Parse(t))
  }

  lemma LineDone(n: string, k: nat, v: string, bare: bool, f0: Fields)
    requires TokenName(n) && NoBreak(v) && (v != [] ==> v[0] != ' ')
    requires v != [] && NameIs(n, CONTENT_LENGTH) ==> IsNumeral(v)
    ensures var h := HeaderLine(n, k, v, bare); LineOk(h) && LineFields(f0, h) == if v == [] then f0 else Apply(f0, n, v)
  {
    hide NameIs, IsToken;
  }

  /** A byte inside a line, or its CR. */
  lemma HoldsOn(line: Line, t: string, k: nat, f0: Fields, f: Fields, ch: char) returns (k': nat)
    requires WellRead(line) && Holds(line, t, k, f0, f) && ReadByte(line, f, ch).Reading? && ch != LF
    ensures var r := ReadByte(line, f, ch); Holds(r.line, t + [ch], k', f0, r.fields)
  {
    hide NameIs, IsToken, Parse, Apply, LineOk, LineFields;
    k' := k;
    match line
    case LineStart => assert [] + [ch] == [ch];
    case InName(n) =>
      ParseName(n);
      LineDone(n, 0, "", false, f0);
      if ch == ':' { k' := 0; assert n + [':'] + Spaces(0) == n + [':']; }
    case BeforeValue(n) =>
      if ch == ' ' {
        k' := k + 1;
        assert Spaces(k) + [' '] == Spaces(k + 1);
        assert t + [ch] == n + [':'] + Spaces(k + 1);
      } else {
        assert t + [] == t;
        ParseText(t, n, k, []);
        LineDone(n, k, [], false, f0);
      }
    case InValue(n, v) =>
      ParseText(t, n, k, v);
      LineDone(n, k, v, false, f0);
      assert t + [ch] == n + [':'] + Spaces(k) + (v + [ch]);
    case AfterCR =>
  }

  /** The LF of a line. */
  lemma HoldsEnd(line: Line, t: string, k: nat, f0: Fields, f: Fields)
    requires WellRead(line) && Holds(line, t, k, f0, f) && ReadByte(line, f, LF).Reading?
    ensures (forall i :: 0 <= i < |t| ==> t[i] != LF) && LineOk(Parse(t))
    ensures var r := ReadByte(line, f, LF); r.line.LineStart? && r.fields == LineFields(f0, Parse(t))
  {
    hide NameIs, IsToken, Parse, Apply, LineOk, LineFields;
    match line
    case LineStart =>
    case InName(n) =>
      TokenBreaksNot();
      ParseName(n);
      LineDone(n, 0, "", true, f0);
    case BeforeValue(n) =>
      assert t + [] == t;
      ParseText(t, n, k, []);
      LineDone(n, k, [], true, f0);
    case InValue(n, v) =>
      ParseText(t, n, k, v);
      LineDone(n, k, v, true, f0);
    case AfterCR =>
  }

  lemma TokenBreaksNot()
    ensures !IsToken(LF) && !IsToken(CR)
  {
  }

  lemma FieldsCons(f: Fields, h: HeaderLine, hs: seq<HeaderLine>)
    requires LineOk(h) && forall i :: 0 <= i < |hs| ==> LineOk(hs[i])
    ensures LinesFields(f, [h] + hs) == LinesFields(LineFields(f, h), hs)
  {
    hide LineOk, LineFields;
    assert ([h] + hs)[1..] == hs;
  }

  /** What a whole header block says is what its lines say. */
  lemma {:induction false} BlockLines(line: Line, t: string, k: nat, f0: Fields, f: Fields, s: string)
    requires WellRead(line) && Holds(line, t, k, f0, f) && Read(line, f, s).Whole? && Read(line, f, s).at <= |s|
    ensures var b := Read(line, f, s);
            var hs := LinesOf(t + s[..b.at]);
            (forall i :: 0 <= i < |hs| ==> LineOk(hs[i])) && b.fields == LinesFields(f0, hs)
    decreases |s|
  {
    hide WellRead, Holds, ReadByte, LinesOf, LinesFields, LineFields, LineOk, Parse;
    var ch := s[0];
    var b := Read(line, f, s);
    ReadKeeps(line, f, ch);
    match ReadByte(line, f, ch)
    case Refused =>
    case Ended(g) =>
      EmptyBlock(line, t, k, f0, f, ch);
      assert t + s[..0] == [];
    case Reading(line', g) =>
      var n := b.at - 1;
      if ch == LF {
        HoldsEnd(line, t, k, f0, f);
        LinesStart(g);
        BlockLines(line', [], 0, g, g, s[1..]);
        var rest := s[1..][..n];
        assert [] + rest == rest && t + s[..b.at] == t + [LF] + rest;
        LinesCons(t, rest);
        FieldsCons(f0, Parse(t), LinesOf(rest));
      } else {
        var k' := HoldsOn(line, t, k, f0, f, ch);
        BlockLines(line', t + [ch], k', f0, g, s[1..]);
        assert t + [ch] + s[1..][..n] == t + s[..b.at];
      }
  }

  lemma EmptyBlock(line: Line, t: string, k: nat, f0: Fields, f: Fields, ch: char)
    requires WellRead(line) && Holds(line, t, k, f0, f) && ReadByte(line, f, ch).Ended?
    ensures t == [] && f == f0 == ReadByte(line, f, ch).fields
    ensures LinesOf([]) == [] && LinesFields(f0, []) == f0
  {
    hide Parse;
  }

  lemma LinesStart(f: Fields)
    ensures Holds(LineStart, [], 0, f, f)
  {
  }

  /** Header blocks in general, lines with a bare LF and lines without a colon included: when
      the reader finds the empty line, the parser before it has exactly the flags that the
      lines before it say. */
  lemma BlockFlags(q: Parser, s: string)
    requires q.state.HeaderFieldStart? && Read(LineStart, FieldsOf(q), s).Whole?
    ensures var n := Read(LineStart, FieldsOf(q), s).at;
            && n < |s| && FreeFeed(q, s[..n]).Consumed?
            && var hs, g := LinesOf(s[..n]), FieldsOf(FreeFeed(q, s[..n]).q);
               && (forall i :: 0 <= i < |hs| ==> LineOk(hs[i]))
               && FlagsAre(FieldsOf(q), hs, g) && g == LinesFields(FieldsOf(q), hs)
  {
    hide Read, FreeFeed, LinesOf, LinesFields, LineOk, FlagsAre;
    var f := FieldsOf(q);
    HeaderBlock(q, LineStart, f, s);
    var n := Read(LineStart, f, s).at;
    LinesStart(f);
    BlockLines(LineStart, [], 0, f, f, s);
    assert [] + s[..n] == s[..n];
    FlagsExactly(f, LinesOf(s[..n]));
  }
}
