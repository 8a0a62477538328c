/** The response header the server prints, and what a response parser makes of the
    header followed by a file. */
module Response {
  import opened Spelling
  import opened Syntax
  import opened Machine
  import opened Messages
  import opened Marks
  import opened Frames
  import opened Invariant
  import opened Split
  import opened Headers
  import opened HeaderLines
  import opened Bodies
  import opened Chunked
  import opened Framing
  import opened Versions

  // ----- `%d` -----

  function DigitChar(d: nat): char
    requires d < 10
  {
    (d + '0' as int) as char
  }

  function PrintDecimal(n: nat): string {
    if n < 10 then [DigitChar(n)] else PrintDecimal(n / 10) + [DigitChar(n % 10)]
  }

  lemma {:induction false} DecimalPrints(n: nat)
    ensures PrintDecimal(n) != [] && (forall i :: 0 <= i < |PrintDecimal(n)| ==> IsDigit(PrintDecimal(n)[i]))
    ensures Decimal(PrintDecimal(n)) == n && (PrintDecimal(n)[0] == '0' ==> n == 0)
    decreases n
  {
    var s := PrintDecimal(n);
    if n >= 10 {
      DecimalPrints(n / 10);
      assert s[..|s| - 1] == PrintDecimal(n / 10);
    } else {
      assert s[..0] == [] && Decimal([]) == 0;
      assert s[..|s| - 1] == [];
    }
  }

  // ----- `write_http200_header` -----

  const STATUS_LINE := "HTTP/1.0 200 OK\r\n"

  function Http200Header(length: nat): string {
    STATUS_LINE
    + ("Content-Length" + ": " + PrintDecimal(length) + "\r\n")
    + ("Content-Type" + ": " + "\t\tapplication/octet-stream" + "\r\n")
    + ("Connection" + ": " + "close" + "\r\n")
    + "\r\n"
  }

  /** The text, line by line. */
  lemma HeaderSpelt(length: nat)
    ensures Http200Header(length) ==
            "HTTP/1.0 200 OK\r\n"
            + ("Content-Length: " + PrintDecimal(length) + "\r\n")
            + ("Content-Type: " + "\t\tapplication/octet-stream" + "\r\n")
            + ("Connection: " + "close" + "\r\n")
            + "\r\n"
  {
    hide PrintDecimal;
    assert "Content-Length" + ": " == "Content-Length: ";
    assert "Content-Type" + ": " == "Content-Type: ";
    assert "Connection" + ": " == "Connection: ";
  }

  function LengthLine(length: nat): HeaderLine { HeaderLine("Content-Length", 1, PrintDecimal(length), false) }

  const TYPE_LINE := HeaderLine("Content-Type", 1, "\t\tapplication/octet-stream", false)

  const CLOSE_LINE := HeaderLine("Connection", 1, "close", false)

  function ServedHeaders(length: nat): seq<HeaderLine> { [LengthLine(length), TYPE_LINE, CLOSE_LINE] }

  lemma LineText(h: HeaderLine)
    requires h.spaces == 1 && !h.bare
    ensures PrintLine(h) == h.name + ": " + h.value + "\r\n"
  {
    assert [':'] + Spaces(1) == ": ";
    assert h.name + [':'] + Spaces(1) == h.name + ([':'] + Spaces(1));
  }

  lemma ThreeLines(a: HeaderLine, b: HeaderLine, c: HeaderLine)
    ensures PrintLines([a, b, c]) == PrintLine(a) + PrintLine(b) + PrintLine(c)
  {
    hide PrintLine;
    assert [a, b, c][1..] == [b, c] && [b, c][1..] == [c] && [c][1..] == [];
    assert PrintLines([c]) == PrintLine(c) + [];
  }

  /** The text is a status line and three header lines. */
  lemma HeaderText(length: nat)
    ensures Http200Header(length) == STATUS_LINE + (PrintLines(ServedHeaders(length)) + CRLF)
  {
    hide PrintLine, PrintLines, PrintDecimal;
    LineText(LengthLine(length));
    LineText(TYPE_LINE);
    LineText(CLOSE_LINE);
    ThreeLines(LengthLine(length), TYPE_LINE, CLOSE_LINE);
    RegroupLines(STATUS_LINE, PrintLine(LengthLine(length)), PrintLine(TYPE_LINE), PrintLine(CLOSE_LINE), CRLF);
  }

  lemma RegroupLines(a: string, b: string, c: string, d: string, e: string)
    ensures a + b + c + d + e == a + ((b + c + d) + e)
  {
  }

  // ----- The status line -----

  lemma VersionText(q: Parser)
    requires q.state.ResH?
    ensures Silent(q, "TTP/", q.(state := ResFirstHttpMajor, nread := q.nread + 4))
  {
    hide Silent;
    SilentNothing(q);
    var n := q.nread;
    var q1, q2, q3 := q.(state := ResHT, nread := n + 1), q.(state := ResHTT, nread := n + 2),
                      q.(state := ResHTTP, nread := n + 3);
    LineSilent(q, [], q, 'T', q1);
    LineSilent(q, [] + ['T'], q1, 'T', q2);
    LineSilent(q, [] + ['T'] + ['T'], q2, 'P', q3);
    LineSilent(q, [] + ['T'] + ['T'] + ['P'], q3, '/', q.(state := ResFirstHttpMajor, nread := n + 4));
    assert [] + ['T'] + ['T'] + ['P'] + ['/'] == "TTP/";
  }

  lemma {:induction false} ReasonRun(q: Parser, s: string)
    requires q.state.ResStatus? && NoBreak(s)
    ensures Silent(q, s, q.(nread := q.nread + |s|))
    decreases |s|
  {
    hide Silent;
    if s == [] {
      SilentNothing(q);
    } else {
      var t, ch := s[..|s| - 1], s[|s| - 1];
      assert s == t + [ch];
      ReasonRun(q, t);
      LineSilent(q, t, q.(nread := q.nread + |t|), ch, q.(nread := q.nread + |s|));
    }
  }

  lemma ReasonEnds(q: Parser, s: string, bare: bool)
    requires q.state.ResStatus? && NoBreak(s)
    ensures Silent(q, s + LineEnd(bare), q.(state := HeaderFieldStart, nread := q.nread + |s + LineEnd(bare)|))
  {
    hide Silent;
    ReasonRun(q, s);
    var n := q.nread + |s|;
    if bare {
      LineSilent(q, s, q.(nread := n), LF, q.(state := HeaderFieldStart, nread := n + 1));
    } else {
      LineSilent(q, s, q.(nread := n), CR, q.(state := ResLineAlmostDone, nread := n + 1));
      LineSilent(q, s + [CR], q.(state := ResLineAlmostDone, nread := n + 1), LF, q.(state := HeaderFieldStart, nread := n + 2));
      assert s + [CR] + [LF] == s + CRLF;
    }
  }

  /** A status line, as its numbers and its reason phrase, if it has one; `bare` is whether it
      ends with LF alone. */
  datatype StatusLine = StatusLine(major: string, minor: string, status: string, reason: Option<string>, bare: bool)

  predicate StatusOk(l: StatusLine) {
    && NumberOk(Major, l.major) && NumberOk(Minor, l.minor) && NumberOk(Status, l.status)
    && (l.reason.Some? ==> NoBreak(l.reason.value))
  }

  /** What comes after the status number. */
  function PrintReason(l: StatusLine): string {
    if l.reason.Some? then [' '] + (l.reason.value + LineEnd(l.bare)) else LineEnd(l.bare)
  }

  function PrintStatus(l: StatusLine): string {
    "HTTP/" + (l.major + ['.']) + (l.minor + [' ']) + (l.status + PrintReason(l))
  }

  /** The status number to the end of the line. */
  lemma StatusEnds(q: Parser, l: StatusLine)
    requires q.state.ResFirstStatusCode? && StatusOk(l)
    ensures Silent(q, l.status + PrintReason(l),
                   q.(state := HeaderFieldStart, statusCode := Decimal(l.status),
                      nread := q.nread + |l.status + PrintReason(l)|))
  {
    hide Silent, Decimal, NoBreak;
    var n := |l.status|;
    var q1 := q.(statusCode := Decimal(l.status));
    if l.reason.Some? {
      NumberAndStop(q, Status, l.status);
      var q2, text := q1.(state := ResStatus, nread := q.nread + n + 1), l.reason.value + LineEnd(l.bare);
      ReasonEnds(q2, l.reason.value, l.bare);
      SilentTwice(q, l.status + [' '], q2, text, q2.(state := HeaderFieldStart, nread := q2.nread + |text|));
      assert l.status + [' '] + text == l.status + ([' '] + text);
    } else if l.bare {
      NumberAndLine(q, Status, l.status);
    } else {
      NumberAndReturn(q, l.status);
      var q2 := q1.(state := ResLineAlmostDone, nread := q.nread + n + 1);
      LineSilent(q, l.status + [CR], q2, LF, q2.(state := HeaderFieldStart, nread := q2.nread + 1));
      assert l.status + [CR] + [LF] == l.status + CRLF;
    }
  }

  lemma NumberAndReturn(q: Parser, s: string)
    requires q.state.ResFirstStatusCode? && NumberOk(Status, s)
    ensures Silent(q, s + [CR], q.(statusCode := Decimal(s), state := ResLineAlmostDone, nread := q.nread + |s| + 1))
  {
    hide Silent, Decimal;
    NumberRun(q, Status, s);
    var q1 := Numbered(q, Status, s);
    LineSilent(q, s, q1, CR, q1.(state := ResLineAlmostDone, nread := q1.nread + 1));
  }

  /** The parser after a status line: nothing of an earlier message is left. */
  function AfterStatus(q: Parser, l: StatusLine): Parser
    requires StatusOk(l)
  {
    BeginMessage(q).(state := HeaderFieldStart, httpMajor := Decimal(l.major), httpMinor := Decimal(l.minor),
                     statusCode := Decimal(l.status), nread := q.nread + |PrintStatus(l)|)
  }

  lemma AfterH(q: Parser, l: StatusLine)
    requires q.state.ResH? && StatusOk(l)
    ensures Silent(q, PrintStatus(l)[1..],
                   q.(state := HeaderFieldStart, httpMajor := Decimal(l.major), httpMinor := Decimal(l.minor),
                      statusCode := Decimal(l.status), nread := q.nread + |PrintStatus(l)| - 1))
  {
    hide Silent, Decimal, NoBreak, PrintReason;
    VersionText(q);
    var q1 := q.(state := ResFirstHttpMajor, nread := q.nread + 4);
    NumberAndStop(q1, Major, l.major);
    var q2 := q1.(httpMajor := Decimal(l.major), state := ResFirstHttpMinor, nread := q1.nread + |l.major| + 1);
    NumberAndStop(q2, Minor, l.minor);
    var q3 := q2.(httpMinor := Decimal(l.minor), state := ResFirstStatusCode, nread := q2.nread + |l.minor| + 1);
    StatusEnds(q3, l);
    var text := l.status + PrintReason(l);
    var q4 := q3.(statusCode := Decimal(l.status), state := HeaderFieldStart, nread := q3.nread + |text|);
    SilentTwice(q, "TTP/", q1, l.major + ['.'], q2);
    SilentTwice(q, "TTP/" + (l.major + ['.']), q2, l.minor + [' '], q3);
    SilentTwice(q, "TTP/" + (l.major + ['.']) + (l.minor + [' ']), q3, text, q4);
    TailText(l);
  }

  lemma TailText(l: StatusLine)
    ensures PrintStatus(l)[1..] == "TTP/" + (l.major + ['.']) + (l.minor + [' ']) + (l.status + PrintReason(l))
  {
    hide PrintReason;
    assert "HTTP/" == ['H'] + "TTP/";
  }

  lemma HStep(q: Parser)
    requires q.state.StartRes?
    ensures FreeStep(q, 'H') == Next(BeginMessage(q).(state := ResH, nread := q.nread + 1), [MessageBegin])
  {
  }

  lemma StartsWithH(q: Parser)
    requires q.state.StartRes?
    ensures FreeFeed(q, ['H']) == Consumed(BeginMessage(q).(state := ResH, nread := q.nread + 1), [Begin])
  {
    hide FreeFeed, FreeStep, SignalEvents, Open;
    OneFreeByte(q, 'H');
    HStep(q);
    Notices(NO_MARKS, [], 0, SummaryOf(q));
    SameWithoutFlush([MessageBegin], NO_MARKS, [], 0, 'H');
    NothingOpenInH();
    OpenEventsAre([], 'H');
    assert [Begin] + [] == [Begin];
  }

  lemma NothingOpenInH()
    ensures Open(ResH) == []
  {
  }

  /** Any status line: its three numbers, and no message data. */
  lemma StatusRun(q: Parser, l: StatusLine)
    requires q.state.StartRes? && StatusOk(l)
    ensures FreeFeed(q, PrintStatus(l)) == Consumed(AfterStatus(q, l), [Begin])
  {
    hide FreeFeed, Silent, Decimal, IsDigits, NoBreak;
    StartsWithH(q);
    var q1 := BeginMessage(q).(state := ResH, nread := q.nread + 1);
    AfterH(q1, l);
    var rest := PrintStatus(l)[1..];
    HFirst(l);
    FreeFeedAppend(q, ['H'], rest);
    IsSilent(q1, rest, AfterStatus(q, l));
    assert [Begin] + [] == [Begin];
  }

  lemma HFirst(l: StatusLine)
    ensures PrintStatus(l) == ['H'] + PrintStatus(l)[1..]
  {
  }

  // ----- Whole responses -----

  /** What the parser assumes about framing before any header line. */
  const NO_FIELDS := Fields(false, false, false, false, SIZE_MODULUS - 1)

  predicate KeepsAlive(minor: nat, g: Fields) { if minor > 0 then !g.close else g.keepAlive }

  function SummaryIs(l: StatusLine, keep: bool, length: nat): Summary
    requires StatusOk(l)
  {
    ResponseSummary(Decimal(l.status), Decimal(l.major), Decimal(l.minor), keep, length)
  }

  function Began(m: Message): Message { m.(began := true) }

  /** A parser that awaits a response. */
  predicate AwaitsResponse(q: Parser) {
    Inv(q) && q.state.StartRes? && q.kind.Response? && !q.upgrade && !q.meth.CONNECT?
  }

  lemma AfterStatusInv(q: Parser, l: StatusLine)
    requires AwaitsResponse(q) && StatusOk(l)
    ensures Inv(AfterStatus(q, l)) && FieldsOf(AfterStatus(q, l)) == NO_FIELDS
  {
    hide Decimal, IsDigits, PrintStatus;
  }

  lemma ResponseSums(q: Parser, l: StatusLine, g: Fields)
    requires AwaitsResponse(q) && StatusOk(l)
    ensures var q1 := WithFields(AfterStatus(q, l), g);
            var keep := KeepsAlive(Decimal(l.minor), g);
            && SummaryOf(q1) == ResponseSummary(Decimal(l.status), Decimal(l.major), Decimal(l.minor), keep, g.length)
            && NewMessage(q1) == if keep then StartRes else Dead
  {
    hide PrintStatus, Inv;
    PositiveMajor(l.major);
  }

  lemma {:induction false} PositiveMajor(s: string)
    requires IsDigits(s) && s[0] != '0'
    ensures Decimal(s) > 0
    decreases |s|
  {
    if |s| > 1 { PositiveMajor(s[..|s| - 1]); }
  }

  /** Printing a response and parsing it gives it back: the numbers of the status line, every
      header, a body of either kind, and one completed message. */
  lemma ResponseRoundTrip(q: Parser, x: Inbox, l: StatusLine, hs: seq<HeaderLine>, b: Body)
    requires AwaitsResponse(q) && !x.cur.lastIsField
    requires StatusOk(l) && forall i :: 0 <= i < |hs| ==> LineOk(hs[i])
    requires q.nread + |PrintStatus(l)| + |Head(hs)| <= MAX_HEADER_SIZE
    requires var g := LinesFields(NO_FIELDS, hs); !g.upgrade && BodyOk(b, g)
    ensures var g := LinesFields(NO_FIELDS, hs);
            Finished(Feed(q, PrintStatus(l) + (Head(hs) + PrintBody(b))), q, x,
                     if KeepsAlive(Decimal(l.minor), LastFields(b, g)) then StartRes else Dead, Carried(b),
                     WithWholeBody(Announced(Began(x.cur), hs, SummaryIs(l, KeepsAlive(Decimal(l.minor), g), g.length)), b))
  {
    hide Inv, Feed, FreeFeed, StatusOk, LineOk, PrintStatus, Head, LinesFields, WithLines, SummaryOf, NewMessage, KeepsAlive,
         BodyOk, PrintBody, LastFields, WithWholeBody, Carried;
    var q1 := AfterStatus(q, l);
    StatusRun(q, l);
    ShortFeed(q, PrintStatus(l));
    AfterStatusInv(q, l);
    Collect1(x, Begin);
    var y := Receive(x, Begin);
    WholeMessage(q1, y, hs, b);
    ResponseSums(q, l, LinesFields(NO_FIELDS, hs));
    ResponseSums(q, l, LastFields(b, LinesFields(NO_FIELDS, hs)));
    FeedTwice(q, x, PrintStatus(l), Head(hs) + PrintBody(b));
  }

  // ----- The header the server prints -----

  lemma OtherName(n: string, literal: string)
    requires n != [] && n[|n| - 1] != ' ' && |n| != |literal|
    ensures !NameIs(n, literal)
  {
  }

  lemma OtherValue(n: string, literal: string)
    requires n != [] && n[|n| - 1] != ' ' && |n| != |literal|
    ensures !ValueIs(n, literal)
  {
  }

  lemma LengthName()
    ensures NameIs("Content-Length", CONTENT_LENGTH)
  {
    var name := "Content-Length";
    assert TrimRight(name) == name;
    assert SameLetters(name, CONTENT_LENGTH) by {
      forall i | 0 <= i < |name| ensures SmallLetter(name[i]) == CONTENT_LENGTH[i] {
        if i == 0 || i == 8 {} else { SmallStays(name[i]); }
      }
    }
  }

  lemma SmallStays(ch: char)
    requires !IsUpper(ch)
    ensures SmallLetter(ch) == ch
  {
  }

  lemma ConnectionName()
    ensures NameIs("Connection", CONNECTION)
  {
    assert TrimRight("Connection") == "Connection";
  }

  lemma CloseValue()
    ensures ValueIs("close", CLOSE)
  {
    assert TrimRight("close") == "close";
  }

  /** A name that is no framing name. */
  lemma Neutral(f: Fields, n: string, v: string)
    requires n != [] && n[|n| - 1] != ' '
    requires |n| != |CONTENT_LENGTH| && |n| != |CONNECTION| && |n| != |PROXY_CONNECTION|
             && |n| != |TRANSFER_ENCODING| && |n| != |UPGRADE|
    ensures !NameIs(n, CONTENT_LENGTH)
    ensures Apply(f, n, v) == f
  {
    hide NameIs, ValueIs;
    OtherName(n, CONTENT_LENGTH);
    OtherName(n, CONNECTION);
    OtherName(n, PROXY_CONNECTION);
    OtherName(n, TRANSFER_ENCODING);
    OtherName(n, UPGRADE);
  }

  lemma LengthApplies(f: Fields, v: string)
    requires IsNumeral(v) && Decimal(v) < SIZE_MODULUS
    ensures Apply(f, "Content-Length", v) == f.(length := Decimal(v))
  {
    hide NameIs, ValueIs, Decimal;
    LengthName();
    var n := "Content-Length";
    OtherName(n, CONNECTION);
    OtherName(n, PROXY_CONNECTION);
    OtherName(n, TRANSFER_ENCODING);
    OtherName(n, UPGRADE);
  }

  lemma CloseApplies(f: Fields)
    ensures !NameIs("Connection", CONTENT_LENGTH)
    ensures Apply(f, "Connection", "close") == f.(close := true)
  {
    hide NameIs, ValueIs;
    ConnectionName();
    CloseValue();
    var n := "Connection";
    OtherName(n, CONTENT_LENGTH);
    OtherName(n, PROXY_CONNECTION);
    OtherName(n, TRANSFER_ENCODING);
    OtherName(n, UPGRADE);
    OtherValue("close", KEEP_ALIVE);
    OtherValue("close", CHUNKED);
  }

  // ----- The served file -----

  lemma OneLine(f: Fields, h: HeaderLine, rest: seq<HeaderLine>)
    requires LineOk(h) && forall i :: 0 <= i < |rest| ==> LineOk(rest[i])
    ensures LinesFields(f, [h] + rest) == LinesFields(LineFields(f, h), rest)
  {
    hide LineOk, LineFields;
    assert ([h] + rest)[1..] == rest;
  }

  /** The header lines the server prints declare the length and that the connection closes. */
  lemma ServedLines(n: nat)
    requires n < SIZE_MODULUS
    ensures forall i :: 0 <= i < 3 ==> LineOk(ServedHeaders(n)[i])
    ensures LinesFields(NO_FIELDS, ServedHeaders(n)) == NO_FIELDS.(length := n, close := true)
  {
    hide LinesFields, LineOk, PrintDecimal, Decimal;
    var f := NO_FIELDS;
    LengthLineOk(f, n);
    TypeLineOk(f.(length := n));
    CloseLineOk(f.(length := n));
    var a, b, c := LengthLine(n), TYPE_LINE, CLOSE_LINE;
    assert [a] + ([b] + ([c] + [])) == ServedHeaders(n);
    OneLine(f, a, [b] + ([c] + []));
    OneLine(f.(length := n), b, [c] + []);
    OneLine(f.(length := n), c, []);
    NoLines(f.(length := n, close := true));
  }

  lemma NoLines(f: Fields)
    ensures LinesFields(f, []) == f
  {
  }

  lemma TokensOk(n: string)
    requires forall i :: 0 <= i < |n| ==> IsLetter(n[i]) || n[i] == '-'
    ensures forall i :: 0 <= i < |n| ==> IsToken(n[i])
  {
  }

  lemma LengthLineOk(f: Fields, n: nat)
    requires n < SIZE_MODULUS
    ensures LineOk(LengthLine(n)) && LineFields(f, LengthLine(n)) == f.(length := n)
  {
    hide NameIs, Decimal, PrintDecimal, Apply, Token;
    DecimalPrints(n);
    TokensOk("Content-Length");
    LengthApplies(f, PrintDecimal(n));
  }

  lemma TypeLineOk(f: Fields)
    ensures LineOk(TYPE_LINE) && LineFields(f, TYPE_LINE) == f
  {
    hide NameIs, Apply, Token;
    TokensOk("Content-Type");
    Neutral(f, TYPE_LINE.name, TYPE_LINE.value);
  }

  lemma CloseLineOk(f: Fields)
    ensures LineOk(CLOSE_LINE) && LineFields(f, CLOSE_LINE) == f.(close := true)
  {
    hide NameIs, Apply, Token;
    TokensOk("Connection");
    CloseApplies(f);
  }

  const HTTP_10 := StatusLine("1", "0", "200", Some("OK"), false)

  lemma Http10()
    ensures PrintStatus(HTTP_10) == STATUS_LINE && StatusOk(HTTP_10)
    ensures Decimal("1") == 1 && Decimal("0") == 0 && Decimal("200") == 200
  {
    assert Decimal("") == 0;
    assert "1"[..0] == "" && "0"[..0] == "" && "2"[..0] == "";
    assert Decimal("2") == 2;
    assert "20"[..1] == "2" && "200"[..2] == "20";
    assert "HTTP/" + ("1" + ['.']) + ("0" + [' ']) + ("200" + ([' '] + ("OK" + CRLF))) == STATUS_LINE;
  }

  function Pow10(k: nat): nat { if k == 0 then 1 else 10 * Pow10(k - 1) }

  lemma {:induction false} PrintedLength(n: nat, k: nat)
    requires 0 < k && n < Pow10(k)
    ensures |PrintDecimal(n)| <= k
    decreases k
  {
    if n >= 10 {
      assert k > 1;
      PrintedLength(n / 10, k - 1);
    }
  }

  lemma TenDigits(n: nat)
    requires n < 0x8000_0000
    ensures |PrintDecimal(n)| <= 10
  {
    assert Pow10(5) == 100000;
    assert Pow10(10) == 10000000000;
    PrintedLength(n, 10);
  }

  /** What a client receives for a file. */
  function ServedMessage(file: string): Message {
    Message(true, "", "", "", "",
            [Header("Content-Length", PrintDecimal(|file|)),
             Header("Content-Type", "\t\tapplication/octet-stream"),
             Header("Connection", "close")],
            false, [ResponseSummary(200, 1, 0, false, |file|)], file)
  }

  lemma ServedHeadersCollected(n: nat, m: Message)
    requires m.headers == []
    ensures WithLines(m, ServedHeaders(n)) ==
            m.(headers := [Header("Content-Length", PrintDecimal(n)), Header("Content-Type", "\t\tapplication/octet-stream"),
                           Header("Connection", "close")], lastIsField := false)
  {
    hide PrintDecimal;
    var hs := ServedHeaders(n);
    var m1 := m.(headers := [Header("Content-Length", PrintDecimal(n))], lastIsField := false);
    var m2 := m1.(headers := m1.headers + [Header("Content-Type", "\t\tapplication/octet-stream")]);
    var m3 := m2.(headers := m2.headers + [Header("Connection", "close")]);
    assert hs[1..] == [TYPE_LINE, CLOSE_LINE] && hs[1..][1..] == [CLOSE_LINE] && hs[1..][1..][1..] == [];
    assert m.headers + [Header("Content-Length", PrintDecimal(n))] == m1.headers;
    assert WithLines(m, hs) == WithLines(m1, hs[1..]);
    assert WithLines(m1, hs[1..]) == WithLines(m2, hs[1..][1..]);
    assert WithLines(m2, hs[1..][1..]) == WithLines(m3, []);
  }

  lemma ServedIs(file: string)
    ensures WithBody(Announced(Began(EMPTY), ServedHeaders(|file|), ResponseSummary(200, 1, 0, false, |file|)), file)
            == ServedMessage(file)
  {
    hide PrintDecimal, WithLines;
    ServedHeadersCollected(|file|, Began(EMPTY));
    assert "" + file == file;
  }

  lemma ServedWhole(q: Parser, file: string)
    requires q.index < 256 && |file| < 0x8000_0000
    ensures Finished(Feed(Init(q, Response), Http200Header(|file|) + file), Init(q, Response), NO_MESSAGES, Dead, 0,
                     ServedMessage(file))
  {
    hide Feed, Inv, LineOk, LinesFields, PrintLines, PrintStatus, StatusOk, Decimal, Finished, Http200Header,
         ServedMessage, ServedHeaders, WithBody, Announced, HTTP_10, STATUS_LINE, Head, KeepsAlive, Init,
         AwaitsResponse, SummaryIs, EMPTY;
    var q0, hs, n := Init(q, Response), ServedHeaders(|file|), |file|;
    FreshAwaits(q);
    Http10();
    ServedLines(n);
    ServedText(file);
    ServedIs(file);
    ServedEnds(n);
    ResponseRoundTrip(q0, NO_MESSAGES, HTTP_10, hs, Sized(file));
  }

  lemma FreshAwaits(q: Parser)
    requires q.index < 256
    ensures AwaitsResponse(Init(q, Response)) && Init(q, Response).nread == 0 && !NO_MESSAGES.cur.lastIsField
  {
    hide Inv;
    InitSafe(q, Response);
  }

  lemma ServedText(file: string)
    requires |file| < 0x8000_0000
    ensures Http200Header(|file|) + file == PrintStatus(HTTP_10) + (Head(ServedHeaders(|file|)) + file)
    ensures |PrintStatus(HTTP_10)| + |Head(ServedHeaders(|file|))| <= 120
  {
    hide PrintLines, ServedHeaders, Http200Header, PrintStatus, HTTP_10, STATUS_LINE;
    Http10();
    HeaderText(|file|);
    HeaderSize(|file|);
    assert STATUS_LINE + (PrintLines(ServedHeaders(|file|)) + CRLF) + file
           == STATUS_LINE + (PrintLines(ServedHeaders(|file|)) + CRLF + file);
  }

  lemma ServedEnds(n: nat)
    requires n < SIZE_MODULUS
    ensures |ServedHeaders(n)| == 3 && !KeepsAlive(Decimal(HTTP_10.minor), NO_FIELDS.(length := n, close := true))
    ensures StatusOk(HTTP_10) && SummaryIs(HTTP_10, false, n) == ResponseSummary(200, 1, 0, false, n)
  {
    hide Decimal, PrintDecimal;
    Http10();
  }

  /** The served file comes back: whatever the parser was used for before, and however the
      bytes are cut up, a client that parses the printed header and the file gets status 200,
      the printed length, the file as the body and one completed message, and the parser is
      then in the dead state, as `Connection: close` says. */
  lemma ServedFile(q: Parser, file: string, pieces: seq<string>)
    requires q.index < 256 && |file| < 0x8000_0000
    requires Concat(pieces) == Http200Header(|file|) + file
    requires forall i :: 0 <= i < |pieces| ==> pieces[i] != []
    ensures var r := Calls(Init(q, Response), pieces);
            r.Consumed? && r.q.state == Dead && Collect(NO_MESSAGES, r.events) == Inbox([ServedMessage(file)], EMPTY)
  {
    hide Feed, Inv, Concat, Http200Header, Calls, ServedMessage, Init;
    ServedWhole(q, file);
    InitSafe(q, Response);
    HeaderSize(|file|);
    ConcatNone();
    SplitMany(Init(q, Response), pieces);
  }

  lemma HeaderSize(n: nat)
    requires n < 0x8000_0000
    ensures 0 < |Http200Header(n)| <= 120
  {
    hide PrintDecimal;
    TenDigits(n);
  }
}
