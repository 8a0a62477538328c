/** Which status lines are accepted: blank lines, a version, a status number, a reason phrase or
    none.  A run reaches the header lines after exactly these. */
module StatusLines {
  import opened Syntax
  import opened Machine
  import opened Messages
  import opened Marks
  import opened Invariant
  import opened Split
  import opened Headers
  import opened HeaderLines
  import opened Chunked
  import opened Versions
  import opened FirstLines
  import opened Response
  import Limit

  /** A status line as a server may write it: `gap` spaces come before the status number
      besides the one after the version. */
  datatype Written = Written(blank: string, gap: nat, line: StatusLine)

  predicate WrittenOk(w: Written) { AllBlank(w.blank) && StatusOk(w.line) }

  function LineText(w: Written): string {
    var l := w.line;
    w.blank + ("HTTP/" + ((l.major + ['.']) + ((l.minor + [' ']) + (Spaces(w.gap) + (l.status + PrintReason(l))))))
  }

  // ----- Reading it -----

  /** Every CR and LF before a response makes it begin. */
  lemma BlankByteBegins(q: Parser, ch: char)
    requires q.state.StartRes? && (ch == CR || ch == LF)
    ensures FreeStep(q, ch) == Next(BeginMessage(q).(nread := q.nread + 1), [MessageBegin])
  {
  }

  lemma HFirstOnly(q: Parser, ch: char)
    requires q.state.StartRes? && ch != CR && ch != LF && FreeStep(q, ch).Next?
    ensures ch == 'H' && FreeStep(q, ch).q.state.ResH?
  {
  }

  lemma {:induction false} ScanBlank(q: Parser, s: string) returns (blank: string, rest: string, q1: Parser)
    requires Gets(q, s) && q.state.StartRes?
    ensures s == blank + (['H'] + rest) && AllBlank(blank) && Gets(q1, rest) && q1.state.ResH?
    decreases |s|
  {
    hide Gets, FreeStep;
    GetsOn(q, s);
    var q0 := FreeStep(q, s[0]).q;
    if s[0] == CR || s[0] == LF {
      BlankByteBegins(q, s[0]);
      var more;
      more, rest, q1 := ScanBlank(q0, s[1..]);
      blank := [s[0]] + more;
    } else {
      HFirstOnly(q, s[0]);
      blank, rest, q1 := [], s[1..], q0;
    }
  }

  lemma GapByte(q: Parser)
    requires q.state.ResFirstStatusCode?
    ensures FirstLineByte(q, ' ') == Next(q, [])
  {
  }

  lemma {:induction false} ScanGap(q: Parser, s: string) returns (n: nat, rest: string, q1: Parser)
    requires Gets(q, s) && q.state.ResFirstStatusCode?
    ensures s == Spaces(n) + rest && Gets(q1, rest) && q1.state.ResFirstStatusCode? && (rest != [] ==> rest[0] != ' ')
    decreases |s|
  {
    hide Gets, FreeStep, FirstLineByte;
    NumberStates(Status);
    LineGetsOn(q, s);
    if s[0] == ' ' {
      GapByte(q.(nread := q.nread + 1));
      n, rest, q1 := ScanGap(FreeStep(q, ' ').q, s[1..]);
      assert Spaces(n + 1) == [' '] + Spaces(n);
      n := n + 1;
    } else {
      n, rest, q1 := 0, s, q;
    }
  }

  lemma ReasonByte(q: Parser, ch: char)
    requires q.state.ResStatus?
    ensures var o := FirstLineByte(q, ch);
            && o.Next?
            && o.q.state == if ch == CR then ResLineAlmostDone else if ch == LF then HeaderFieldStart else ResStatus
  {
  }

  lemma {:induction false} ScanReason(q: Parser, s: string) returns (reason: string, bare: bool, rest: string)
    requires Gets(q, s) && q.state.ResStatus?
    ensures s == reason + LineEnd(bare) + rest && NoBreak(reason)
    decreases |s|
  {
    hide Gets, FreeStep, FirstLineByte, LineEnd;
    ReasonInLine();
    LineGetsOn(q, s);
    ReasonByte(q.(nread := q.nread + 1), s[0]);
    var q0 := FreeStep(q, s[0]).q;
    if s[0] == CR || s[0] == LF {
      var q1;
      rest, q1 := ScanEnd(q0, s[0], s[1..]);
      reason, bare := [], s[0] == LF;
      assert [] + LineEnd(bare) == LineEnd(bare);
    } else {
      reason, bare, rest := ScanReason(q0, s[1..]);
      assert [s[0]] + (reason + LineEnd(bare) + rest) == ([s[0]] + reason) + LineEnd(bare) + rest;
      reason := [s[0]] + reason;
    }
  }

  lemma ReasonInLine()
    ensures InFirstLine(ResStatus)
  {
  }

  /** From the byte after the status number to the end of the line. */
  lemma ScanAfter(q: Parser, l: StatusLine, stop: char, s: string) returns (l': StatusLine, rest: string)
    requires Gets(q, s) && Leads(Status, stop, q.state)
    ensures l' == l.(reason := l'.reason, bare := l'.bare) && (l'.reason.Some? ==> NoBreak(l'.reason.value))
    ensures [stop] + s == PrintReason(l') + rest
  {
    hide Gets, NoBreak;
    if stop == ' ' {
      var reason, bare;
      reason, bare, rest := ScanReason(q, s);
      l' := l.(reason := Some(reason), bare := bare);
      assert [' '] + (reason + LineEnd(bare) + rest) == PrintReason(l') + rest;
    } else {
      var q1;
      rest, q1 := ScanEnd(q, stop, s);
      l' := l.(reason := None, bare := stop == LF);
    }
  }

  lemma ScanLine(q: Parser, s: string) returns (w: Written)
    requires Gets(q, s) && q.state.StartRes?
    ensures WrittenOk(w) && LineText(w) <= s
  {
    hide Gets, NumberOk, Spaces, AllBlank, NoBreak, PrintReason;
    var blank, s1, q1 := ScanBlank(q, s);
    var s2, q2 := ScanHttp(q1, s1);
    var major, dot, s3, q3 := ScanNumberStop(q2, Major, s2);
    var minor, space, s4, q4 := ScanNumberStop(q3, Minor, s3);
    var gap, s5, q5 := ScanGap(q4, s4);
    var status, stop, s6, q6 := ScanNumberStop(q5, Status, s5);
    var l, rest := ScanAfter(q6, StatusLine(major, minor, status, None, false), stop, s6);
    w := Written(blank, gap, l);
    assert status + [stop] + s6 == status + ([stop] + s6);
    assert ['H'] + ("TTP/" + s2) == "HTTP/" + s2;
    JoinLine(w, rest, s5, s4, s3, s2, s);
  }

  lemma JoinLine(w: Written, rest: string, s5: string, s4: string, s3: string, s2: string, s: string)
    requires var l := w.line;
             && s5 == l.status + (PrintReason(l) + rest) && s4 == Spaces(w.gap) + s5 && s3 == l.minor + [' '] + s4
             && s2 == l.major + ['.'] + s3 && s == w.blank + ("HTTP/" + s2)
    ensures s == LineText(w) + rest
  {
    hide Spaces, PrintReason;
    var l := w.line;
    var t5 := l.status + PrintReason(l);
    assert s5 == t5 + rest;
    var t4 := Spaces(w.gap) + t5;
    assert s4 == t4 + rest;
    var t3 := (l.minor + [' ']) + t4;
    assert s3 == t3 + rest;
    var t2 := (l.major + ['.']) + t3;
    assert s2 == t2 + rest;
    assert "HTTP/" + s2 == ("HTTP/" + t2) + rest;
  }

  // ----- Writing it -----

  lemma {:induction false} BlankBegins(q: Parser, x: Inbox, blank: string)
    requires q.state.StartRes? && AllBlank(blank)
    ensures var r := FreeFeed(q, blank);
            && r.Consumed? && Collect(x, r.events) == (if blank == [] then x else Inbox(x.done, Began(x.cur)))
            && r.q == (if blank == [] then q else BeginMessage(q).(nread := q.nread + |blank|))
    decreases |blank|
  {
    hide FreeFeed, FreeStep, Collect;
    FreeFeedEmpty(q);
    CollectNone(x);
    if blank != [] {
      var t, ch := blank[..|blank| - 1], blank[|blank| - 1];
      assert blank == t + [ch];
      BlankBegins(q, x, t);
      var q1, y := FreeFeed(q, t).q, Collect(x, FreeFeed(q, t).events);
      BlankByteBegins(q1, ch);
      BeginEvent(q1, ch);
      FreeFeedSnoc(q, t, ch);
      CollectAppend(x, FreeFeed(q, t).events, [Begin]);
      Collect1(y, Begin);
    }
  }

  lemma BeginEvent(q: Parser, ch: char)
    requires q.state.StartRes? && (ch == CR || ch == LF)
    ensures OneByte(FreeStep(q, ch), ch) == Consumed(BeginMessage(q).(nread := q.nread + 1), [Begin])
  {
    hide FreeStep, SignalEvents, Open;
    BlankByteBegins(q, ch);
    Notices(NO_MARKS, [], 0, SummaryOf(q));
    SameWithoutFlush([MessageBegin], NO_MARKS, [], 0, ch);
    NothingOpenAtStart();
    OpenEventsAre([], ch);
    assert [Begin] + [] == [Begin];
  }

  lemma NothingOpenAtStart()
    ensures Open(StartRes) == []
  {
  }

  lemma {:induction false} GapRun(q: Parser, n: nat)
    requires q.state.ResFirstStatusCode?
    ensures Silent(q, Spaces(n), q.(nread := q.nread + n))
    decreases n
  {
    hide Silent, FirstLineByte;
    NumberStates(Status);
    if n == 0 {
      SilentNothing(q);
    } else {
      GapRun(q, n - 1);
      assert Spaces(n) == Spaces(n - 1) + [' '];
      var q1 := q.(nread := q.nread + n - 1);
      GapByte(q1.(nread := q1.nread + 1));
      LineSilent(q, Spaces(n - 1), q1, ' ', q.(nread := q.nread + n));
    }
  }

  /** The parser after a status line. */
  function AfterWritten(q: Parser, w: Written): Parser
    requires StatusOk(w.line)
  {
    var l := w.line;
    BeginMessage(q).(state := HeaderFieldStart, httpMajor := Decimal(l.major), httpMinor := Decimal(l.minor),
                     statusCode := Decimal(l.status), nread := q.nread + |LineText(w)|)
  }

  /** The text after the first letter. */
  function Rest(w: Written): string {
    var l := w.line;
    "TTP/" + ((l.major + ['.']) + ((l.minor + [' ']) + (Spaces(w.gap) + (l.status + PrintReason(l)))))
  }

  /** From the byte after the version to the end of the line. */
  lemma GapAndStatus(q: Parser, w: Written)
    requires q.state.ResFirstStatusCode? && StatusOk(w.line)
    ensures var text := Spaces(w.gap) + (w.line.status + PrintReason(w.line));
            Silent(q, text, q.(state := HeaderFieldStart, statusCode := Decimal(w.line.status), nread := q.nread + |text|))
  {
    hide Silent, Decimal, NoBreak, PrintReason, Spaces;
    var l := w.line;
    GapRun(q, w.gap);
    GapLength(w.gap);
    var q1 := q.(nread := q.nread + w.gap);
    StatusEnds(q1, l);
    var text := l.status + PrintReason(l);
    SilentTwice(q, Spaces(w.gap), q1, text,
                q1.(statusCode := Decimal(l.status), state := HeaderFieldStart, nread := q1.nread + |text|));
  }

  lemma RestRun(q: Parser, w: Written)
    requires q.state.ResH? && StatusOk(w.line)
    ensures var l := w.line;
            Silent(q, Rest(w), q.(state := HeaderFieldStart, httpMajor := Decimal(l.major), httpMinor := Decimal(l.minor),
                                  statusCode := Decimal(l.status), nread := q.nread + |Rest(w)|))
  {
    hide Silent, Decimal, NoBreak, PrintReason, Spaces;
    var l := w.line;
    VersionText(q);
    var q1 := q.(state := ResFirstHttpMajor, nread := q.nread + 4);
    NumberAndStop(q1, Major, l.major);
    var q2 := q1.(httpMajor := Decimal(l.major), state := ResFirstHttpMinor, nread := q1.nread + |l.major| + 1);
    NumberAndStop(q2, Minor, l.minor);
    var q3 := q2.(httpMinor := Decimal(l.minor), state := ResFirstStatusCode, nread := q2.nread + |l.minor| + 1);
    GapAndStatus(q3, w);
    var t4 := Spaces(w.gap) + (l.status + PrintReason(l));
    var q4 := q3.(statusCode := Decimal(l.status), state := HeaderFieldStart, nread := q3.nread + |t4|);
    SilentTwice(q2, l.minor + [' '], q3, t4, q4);
    var t3 := (l.minor + [' ']) + t4;
    SilentTwice(q1, l.major + ['.'], q2, t3, q4);
    SilentTwice(q, "TTP/", q1, (l.major + ['.']) + t3, q4);
  }

  lemma GapLength(n: nat)
    ensures |Spaces(n)| == n
  {
  }

  /** The line without the blank ones before it. */
  lemma FromH(q: Parser, w: Written)
    requires q.state.StartRes? && StatusOk(w.line)
    ensures var l := w.line;
            FreeFeed(q, ['H'] + Rest(w)) ==
            Consumed(BeginMessage(q).(state := HeaderFieldStart, httpMajor := Decimal(l.major),
                                      httpMinor := Decimal(l.minor), statusCode := Decimal(l.status),
                                      nread := q.nread + 1 + |Rest(w)|), [Begin])
  {
    hide FreeFeed, Silent, Decimal, NoBreak, Rest;
    var l := w.line;
    StartsWithH(q);
    var q1 := BeginMessage(q).(state := ResH, nread := q.nread + 1);
    RestRun(q1, w);
    IsSilent(q1, Rest(w), q1.(state := HeaderFieldStart, httpMajor := Decimal(l.major), httpMinor := Decimal(l.minor),
                              statusCode := Decimal(l.status), nread := q1.nread + |Rest(w)|));
    FreeFeedAppend(q, ['H'], Rest(w));
    assert [Begin] + [] == [Begin];
  }

  lemma LinePieces(w: Written)
    ensures LineText(w) == w.blank + (['H'] + Rest(w))
  {
    hide Spaces, PrintReason;
    assert "HTTP/" == ['H'] + "TTP/";
  }

  /** Every such line is read: its message begins, and nothing else is told. */
  lemma LineRun(q: Parser, x: Inbox, w: Written)
    requires q.state.StartRes? && WrittenOk(w)
    ensures var r := FreeFeed(q, LineText(w));
            r.Consumed? && r.q == AfterWritten(q, w) && Collect(x, r.events) == Inbox(x.done, Began(x.cur))
  {
    hide FreeFeed, Decimal, StatusOk, AllBlank, Collect, Rest, LineText;
    BlankBegins(q, x, w.blank);
    var q1, y := FreeFeed(q, w.blank).q, Collect(x, FreeFeed(q, w.blank).events);
    FromH(q1, w);
    FreeFeedAppend(q, w.blank, ['H'] + Rest(w));
    LinePieces(w);
    CollectAppend(x, FreeFeed(q, w.blank).events, [Begin]);
    Collect1(y, Begin);
  }

  // ----- Exactly these -----

  lemma LineReads(q: Parser, w: Written)
    requires q.state.StartRes? && WrittenOk(w)
    ensures var r := FreeFeed(q, LineText(w)); r.Consumed? && r.q == AfterWritten(q, w)
    ensures AfterWritten(q, w).state.HeaderFieldStart? && AfterWritten(q, w).nread == q.nread + |LineText(w)|
  {
    hide FreeFeed, LineText, Collect, StatusOk;
    LineRun(q, NO_MESSAGES, w);
  }

  lemma LineConsumed(q: Parser, w: Written)
    requires Inv(q) && q.state.StartRes? && WrittenOk(w) && q.nread <= MAX_HEADER_SIZE
    requires Feed(q, LineText(w)).Consumed?
    ensures q.nread + |LineText(w)| <= MAX_HEADER_SIZE
  {
    hide Feed, FreeFeed, Inv, WrittenOk, LineText;
    LineReads(q, w);
    if q.nread + |LineText(w)| > MAX_HEADER_SIZE { Limit.TooMany(q, LineText(w)); }
  }

  lemma ReadsLine(q: Parser, s: string) returns (w: Written)
    requires Inv(q) && q.state.StartRes? && q.nread <= MAX_HEADER_SIZE && AtLines(Feed(q, s))
    ensures WrittenOk(w) && LineText(w) <= s && q.nread + |LineText(w)| <= MAX_HEADER_SIZE
  {
    hide Feed, FreeFeed, Inv, WrittenOk, LineText;
    LimitExact(q, s);
    w := ScanLine(q, s);
    var n := |LineText(w)|;
    assert s == LineText(w) + s[n..];
    FeedAppend(q, LineText(w), s[n..]);
    LineConsumed(q, w);
  }

  /** The status lines that are accepted, exactly: a run from the start of a response gets to the
      header lines when the buffer begins with blank lines, `HTTP/`, two numbers, a space and
      more, a status number, and either a space and a reason phrase or nothing; and when they are
      within the header limit. */
  lemma LinesAccepted(q: Parser, s: string)
    requires Inv(q) && q.state.StartRes? && q.nread <= 81920
    ensures Reaches(q, s) <==> exists w :: WrittenOk(w) && LineText(w) <= s && q.nread + |LineText(w)| <= 81920
  {
    hide Feed, FreeFeed, Inv, WrittenOk, LineText, AtLines;
    if Reaches(q, s) {
      var n :| 0 <= n <= |s| && AtLines(Feed(q, s[..n]));
      var w := ReadsLine(q, s[..n]);
    }
    if w :| WrittenOk(w) && LineText(w) <= s && q.nread + |LineText(w)| <= 81920 {
      LineReads(q, w);
      ShortFeed(q, LineText(w));
      assert s[..|LineText(w)|] == LineText(w);
      AreLines(Feed(q, LineText(w)));
    }
  }
}
