/** Which target is reported: the text after the method in the request line, for every
    buffer that holds a request, whatever follows it and however the run ends. */
module TargetText {
  import opened Syntax
  import opened Machine
  import opened Messages
  import opened Marks
  import opened Frames
  import opened Invariant
  import opened Split
  import opened Independence
  import opened Targets
  import opened UrlCalls
  import Protocol
  import Methods

  // ----- The bytes of a target -----

  predicate Breaks(ch: char) { ch == ' ' || ch == CR || ch == LF }

  predicate Solid(u: string) { forall i :: 0 <= i < |u| ==> !Breaks(u[i]) }

  lemma UrlGoes(q: Parser, ch: char)
    requires InUrl(q.state)
    ensures var o := UrlByte(q, ch); o.Next? ==> Goes(q.state, ch, o.q.state) && UrlNext(o.q.state)
  {
    hide UrlByte, Goes, UrlNext;
    UrlFrame(q, ch);
    if q.state.ReqSpacesBeforeUrl? || InAuthority(q.state) { AuthorityGoes(q, ch); }
    else if q.state.ReqPath? || q.state.ReqQueryStringStart? { PathGoes(q, ch); }
    else { QueryGoes(q, ch); }
  }

  lemma SolidGoes(s: State, ch: char, s': State)
    requires InUrl(s) && Goes(s, ch, s') && UrlNext(s') && !Breaks(ch)
    ensures InTarget(s')
  {
  }

  lemma IntoAuthority(s: State, ch: char, s': State)
    requires Goes(s, ch, s') && InAuthority(s')
    ensures !Breaks(ch)
  {
    hide Goes, InAuthority;
    AuthorityFrom(s, ch, s');
  }

  lemma IntoPath(s: State, ch: char, s': State)
    requires Goes(s, ch, s') && InTarget(s') && !InAuthority(s')
    ensures !Breaks(ch)
  {
    hide IsLetter, IsAuthorityChar, IsUrlChar;
    UrlCharSolid(ch);
  }

  lemma UrlCharSolid(ch: char)
    ensures IsUrlChar(ch) ==> !Breaks(ch)
  {
  }

  lemma IntoTarget(s: State, ch: char, s': State)
    requires Goes(s, ch, s') && InTarget(s')
    ensures !Breaks(ch)
  {
    hide Goes, InTarget, InAuthority, Breaks;
    if InAuthority(s') { IntoAuthority(s, ch, s'); } else { IntoPath(s, ch, s'); }
  }

  lemma BreakGoes(s: State, ch: char, s': State)
    requires InTarget(s) && Goes(s, ch, s') && UrlNext(s') && Breaks(ch)
    ensures !InTarget(s') && !Early(s')
  {
    hide InUrl, Breaks;
    if InTarget(s') { IntoTarget(s, ch, s'); }
    OutOfTarget(s, ch, s');
  }

  lemma OutOfTarget(s: State, ch: char, s': State)
    requires InTarget(s) && Goes(s, ch, s') && UrlNext(s') && !InTarget(s')
    ensures !Early(s')
  {
    hide IsUrlChar, IsLetter, IsAuthorityChar;
  }

  /** A byte of the target goes to the end of the URL; the byte that ends it goes nowhere. */
  lemma TextByte(q: Parser, x: Inbox, ch: char)
    requires InUrl(q.state) && FreeStep(q, ch).Next?
    ensures var o := FreeStep(q, ch);
            var y := Collect(x, ByteEvents(o.q, o.signals, ch));
            && y.done == x.done && y.cur.began == x.cur.began
            && (!Breaks(ch) ==> InTarget(o.q.state) && y.cur.url == x.cur.url + [ch])
            && (Breaks(ch) && InTarget(q.state) ==> !Unread(o.q.state) && y.cur.url == x.cur.url)
  {
    hide FreeStep, UrlByte, ByteEvents, Collect, InUrl, Goes, UrlNext, Breaks, InTarget, Early;
    UrlDispatch(q, ch);
    var c := Count(q);
    SameUrlState(q);
    UrlGoes(c, ch);
    UrlCollects(c, x, ch);
    var o := FreeStep(q, ch);
    KeptUrl(x.cur, o.q.state, ch);
    if !Breaks(ch) { SolidGoes(q.state, ch, o.q.state); }
    else if InTarget(q.state) { BreakGoes(q.state, ch, o.q.state); }
  }

  lemma KeptUrl(m: Message, s: State, ch: char)
    ensures Kept(m, s, ch).began == m.began
    ensures Kept(m, s, ch).url == if InTarget(s) then m.url + [ch] else m.url
  {
  }

  /** The target: its text is collected as the URL, whole. */
  lemma {:induction false} TextRun(q: Parser, x: Inbox, u: string)
    requires InUrl(q.state) && u != [] && Solid(u) && FreeFeed(q, u).Consumed?
    ensures var r := FreeFeed(q, u);
            var y := Collect(x, r.events);
            InTarget(r.q.state) && y.done == x.done && y.cur.began == x.cur.began && y.cur.url == x.cur.url + u
    decreases |u|
  {
    hide FreeStep, ByteEvents, Collect, InUrl, Breaks;
    TextByte(q, x, u[0]);
    var o := FreeStep(q, u[0]);
    var es := ByteEvents(o.q, o.signals, u[0]);
    var rest := u[1..];
    CollectAppend(x, es, FreeFeed(o.q, rest).events);
    assert u == [u[0]] + rest;
    if rest == [] {
      CollectNone(Collect(x, es));
      FreeFeedEmpty(o.q);
    } else {
      TextRun(o.q, Collect(x, es), rest);
      assert x.cur.url + [u[0]] + rest == x.cur.url + u;
    }
  }

  predicate AllSpaces(s: string) { forall i :: 0 <= i < |s| ==> s[i] == ' ' }

  lemma SpaceByte(q: Parser)
    requires q.state.ReqSpacesBeforeUrl?
    ensures OneByte(FreeStep(q, ' '), ' ') == Consumed(q.(nread := q.nread + 1), [])
  {
  }

  lemma {:induction false} SpacesRun(q: Parser, s: string)
    requires q.state.ReqSpacesBeforeUrl? && AllSpaces(s)
    ensures FreeFeed(q, s) == Consumed(q.(nread := q.nread + |s|), [])
    decreases |s|
  {
    hide FreeStep;
    if s != [] {
      SpaceByte(q);
      SpacesRun(q.(nread := q.nread + 1), s[1..]);
    }
  }

  // ----- What has been told only grows -----

  lemma QuietDue(q: Parser, x: Inbox, ch: char)
    requires Inv(q) && !InUrl(q.state) && FreeStep(q, ch).Next?
    ensures var o := FreeStep(q, ch); Due(q, x) <= Due(o.q, Collect(x, ByteEvents(o.q, o.signals, ch)))
  {
    hide FreeStep, Inv, ByteEvents, Collect, InTarget, Early;
    StepQuiet(q, ch);
    var o := FreeStep(q, ch);
    var y := Collect(x, ByteEvents(o.q, o.signals, ch));
    if Completes(o.signals) {
      CompletingBytes(q.state, o.signals, o.q, ch, x);
      UrlsOfSnoc(x.done, y.done[|x.done|]);
      assert y.done == x.done + [y.done[|x.done|]];
      NotInUrl(q.state);
    } else {
      QuietBytes(q.state, o.signals, o.q, ch);
      TargetStays(x, ByteEvents(o.q, o.signals, ch));
      NotInUrl(q.state);
    }
  }

  lemma NotInUrl(s: State)
    requires !InUrl(s)
    ensures !InTarget(s)
  {
  }

  lemma DueStep(q: Parser, x: Inbox, ch: char)
    requires Inv(q) && FreeStep(q, ch).Next?
    ensures var o := FreeStep(q, ch); Due(q, x) <= Due(o.q, Collect(x, ByteEvents(o.q, o.signals, ch)))
  {
    hide FreeStep, Inv, ByteEvents, Collect, Unread, InUrl;
    if InUrl(q.state) {
      TextByte(q, x, ch);
      UrlUnread(q.state);
    } else {
      QuietDue(q, x, ch);
    }
  }

  lemma {:induction false} DueGrows(q: Parser, x: Inbox, s: string)
    requires Inv(q) && FreeFeed(q, s).Consumed?
    ensures var r := FreeFeed(q, s); Due(q, x) <= Due(r.q, Collect(x, r.events))
    decreases |s|
  {
    hide FreeStep, Inv, ByteEvents, Due;
    if s == [] {
      CollectNone(x);
    } else {
      FreeStepSafe(q, s[0]);
      DueStep(q, x, s[0]);
      var o := FreeStep(q, s[0]);
      var es := ByteEvents(o.q, o.signals, s[0]);
      DueGrows(o.q, Collect(x, es), s[1..]);
      CollectAppend(x, es, FreeFeed(o.q, s[1..]).events);
    }
  }

  // ----- The URLs of a call -----

  /** The URLs that an application with inbox `x` has been told when the call returns,
      however it ends; one that the buffer cuts off is told in part. */
  function AskedFrom(q: Parser, x: Inbox, data: string): seq<string> {
    match Feed(q, data)
    case Consumed(q', es) => AllDue(q', Collect(x, es))
    case Stopped(_, es, OtherProtocol) => UrlsOf(Collect(x, es).done)
    case Stopped(at, es, _) =>
      if at <= |data| && Feed(q, data[..at]).Consumed? then Due(Feed(q, data[..at]).q, Collect(x, es)) else []
  }

  function Asked(q: Parser, data: string): seq<string> { AskedFrom(q, NO_MESSAGES, data) }

  /** A stop, in terms of the bytes before it. */
  lemma StopAsked(q: Parser, x: Inbox, data: string)
    requires Inv(q) && Feed(q, data).Stopped?
    ensures var r := Feed(q, data);
            && r.at < |data| && Feed(q, data[..r.at]).Consumed? && Inv(Feed(q, data[..r.at]).q)
            && var before := Feed(q, data[..r.at]);
               var y := Collect(x, before.events);
               if r.reason.OtherProtocol? then
                 && (before.q.state.HeaderFieldStart? || before.q.state.HeadersAlmostDone?)
                 && UrlsOf(Collect(x, r.events).done) == UrlsOf(y.done) + [y.cur.url]
                 && AskedFrom(q, x, data) == UrlsOf(y.done) + [y.cur.url]
                 && |Collect(x, r.events).done| == |y.done| + 1 && !Collect(x, r.events).cur.began
               else Collect(x, r.events) == y && AskedFrom(q, x, data) == Due(before.q, y)
  {
    hide Feed, Step, Inv, Collect, Due, UrlsOf;
    StopIs(q, data);
    var r := Feed(q, data);
    var before := Feed(q, data[..r.at]);
    FeedSafe(q, data[..r.at]);
    StopEvents(before.q, data[r.at]);
    var y := Collect(x, before.events);
    var last := OneByte(Step(before.q, data[r.at]), data[r.at]).events;
    CollectAppend(x, before.events, last);
    if r.reason.OtherProtocol? {
      var summary :| last == [HeadersDone(summary), Complete];
      Collect2(y, HeadersDone(summary), Complete);
      UrlsOfSnoc(y.done, y.cur.(summary := y.cur.summary + [summary]));
    } else {
      CollectNone(y);
    }
  }

  lemma PastTarget(q: Parser, x: Inbox)
    requires q.state.HeaderFieldStart? || q.state.HeadersAlmostDone?
    ensures Due(q, x) == UrlsOf(x.done) + [x.cur.url]
  {
  }

  lemma AllDueMore(q: Parser, x: Inbox)
    ensures Due(q, x) <= AllDue(q, x)
  {
    hide Early, InTarget;
  }

  /** What was told before a call stays told. */
  lemma AskedGrows(q: Parser, x: Inbox, data: string)
    requires Inv(q)
    ensures Due(q, x) <= AskedFrom(q, x, data)
  {
    hide Feed, FreeFeed, Inv, Collect, Due, AllDue, UrlsOf;
    var r := Feed(q, data);
    if r.Consumed? {
      LimitExact(q, data);
      DueGrows(q, x, data);
      AllDueMore(r.q, Collect(x, r.events));
    } else {
      StopAsked(q, x, data);
      var t := data[..r.at];
      LimitExact(q, t);
      DueGrows(q, x, t);
      var before := Feed(q, t);
      if r.reason.OtherProtocol? { PastTarget(before.q, Collect(x, before.events)); }
    }
  }

  /** The first part of a buffer changes where the rest starts, and nothing else. */
  lemma AskedLater(q: Parser, x: Inbox, a: string, b: string)
    requires Inv(q) && Feed(q, a).Consumed?
    ensures AskedFrom(q, x, a + b) == AskedFrom(Feed(q, a).q, Collect(x, Feed(q, a).events), b)
  {
    hide Feed, Collect, Inv, AllDue, UrlsOf;
    FeedAppend(q, a, b);
    FeedSafe(q, a);
    var r := Feed(q, a);
    var t := Feed(r.q, b);
    CollectAppend(x, r.events, t.events);
    if t.Stopped? {
      StopAsked(r.q, Collect(x, r.events), b);
      var n := t.at;
      FeedAppend(q, a, b[..n]);
      assert (a + b)[..|a| + n] == a + b[..n];
    }
  }

  // ----- The request line -----

  /** Blank lines, a word that is read as method `m`, spaces, and the bytes up to the next
      space or line end, if there is one. */
  predicate LineParts(blank: string, w: string, m: Method, spaces: string, u: string, rest: string) {
    && AllBlank(blank) && Methods.Word(w, m) && AllSpaces(spaces) && u != [] && Solid(u)
    && (rest == [] || Breaks(rest[0]))
  }

  function BeforeTarget(blank: string, w: string, spaces: string): string { blank + (w + [' ']) + spaces }

  /** Up to the target the application has been told of a message, and nothing else. */
  lemma BeforeRun(q: Parser, x: Inbox, blank: string, w: string, m: Method, spaces: string)
    requires q.state.StartReq? && AllBlank(blank) && Methods.Word(w, m) && AllSpaces(spaces)
    ensures var r := FreeFeed(q, BeforeTarget(blank, w, spaces));
            && r.Consumed? && r.q.state.ReqSpacesBeforeUrl? && r.q.meth == m
            && Collect(x, r.events) == Inbox(x.done, x.cur.(began := true))
  {
    hide FreeFeed, Methods.Word, AllBlank, AllSpaces, Collect;
    BlankRun(q, blank);
    var q1 := FreeFeed(q, blank).q;
    Methods.MethodText(q1, w, m);
    FreeFeedAppend(q, blank, w + [' ']);
    var q2 := FreeFeed(q1, w + [' ']).q;
    SpacesRun(q2, spaces);
    FreeFeedAppend(q, blank + (w + [' ']), spaces);
    assert [] + [Begin] + [] == [Begin];
    Collect1(x, Begin);
  }

  /** A run that gets past some bytes consumes them. */
  lemma GetsPast(q: Parser, a: string, b: string)
    requires var r := Feed(q, a + b); r.Consumed? || r.at >= |a|
    ensures Feed(q, a).Consumed?
  {
    hide Feed;
    FeedAppend(q, a, b);
    if Feed(q, a).Stopped? { StopIs(q, a); }
  }

  /** The byte that ends a target: its URL has been told, and stays told. */
  lemma BreakTold(q: Parser, x: Inbox, ch: char, more: string)
    requires Inv(q) && InTarget(q.state) && Breaks(ch) && Feed(q, [ch]).Consumed?
    ensures UrlsOf(x.done) + [x.cur.url] <= AskedFrom(q, x, [ch] + more)
  {
    hide Feed, FreeFeed, Inv, Collect, Breaks, FreeStep, Step, Unread, UrlsOf, AskedFrom, InUrl, ByteEvents;
    LimitExact(q, [ch]);
    FeedSafe(q, [ch]);
    OneFreeByte(q, ch);
    TextByte(q, x, ch);
    AskedLater(q, x, [ch], more);
    AskedGrows(FreeStep(q, ch).q, Collect(x, Feed(q, [ch]).events), more);
  }

  /** From a target on: the URL that is told is its text. */
  lemma TargetTold(q: Parser, x: Inbox, u: string, rest: string)
    requires Inv(q) && q.state.ReqSpacesBeforeUrl? && x.cur.url == []
    requires u != [] && Solid(u) && (rest == [] || Breaks(rest[0]))
    requires var r := Feed(q, u + rest); r.Consumed? || r.at > |u|
    ensures UrlsOf(x.done) + [u] <= AskedFrom(q, x, u + rest)
  {
    hide Feed, FreeFeed, Inv, Collect, Solid, Breaks, UrlsOf, AskedFrom, InTarget;
    GetsPast(q, u, rest);
    LimitExact(q, u);
    TextRun(q, x, u);
    FeedSafe(q, u);
    var q1, y := Feed(q, u).q, Collect(x, Feed(q, u).events);
    assert y.cur.url == u by { assert [] + u == u; }
    AskedLater(q, x, u, rest);
    if rest == [] {
      CutOff(q1, y);
    } else {
      PastBreak(q, u, rest[0], rest[1..], rest);
      BreakTold(q1, y, rest[0], rest[1..]);
    }
  }

  lemma PastBreak(q: Parser, u: string, ch: char, more: string, rest: string)
    requires rest != [] && ch == rest[0] && more == rest[1..]
    requires var r := Feed(q, u + rest); r.Consumed? || r.at > |u|
    ensures rest == [ch] + more
    ensures Feed(q, u).Consumed? ==> Feed(Feed(q, u).q, [ch]).Consumed?
  {
    hide Feed;
    assert u + rest == (u + [ch]) + more;
    GetsPast(q, u + [ch], more);
    FeedAppend(q, u, [ch]);
  }

  lemma CutOff(q: Parser, x: Inbox)
    requires InTarget(q.state)
    ensures AskedFrom(q, x, []) == UrlsOf(x.done) + [x.cur.url]
  {
    hide Feed, Early, InTarget, UrlsOf, Collect;
    FeedEmpty(q);
    CollectNone(x);
    NotEarly(q.state);
  }

  lemma NotEarly(s: State)
    requires InTarget(s)
    ensures !Early(s)
  {
  }

  /** Target extraction: for every buffer whose first request line is accepted, whatever
      comes after it and however the run ends, the first URL that is told is the text
      after the method, up to the next space or line end. */
  lemma FirstTarget(q0: Parser, blank: string, w: string, m: Method, spaces: string, u: string, rest: string)
    requires q0.index < 256 && LineParts(blank, w, m, spaces, u, rest)
    requires var before := BeforeTarget(blank, w, spaces);
             var r := Feed(Init(q0, Request), before + (u + rest));
             r.Consumed? || r.at > |before| + |u|
    ensures [u] <= Asked(Init(q0, Request), BeforeTarget(blank, w, spaces) + (u + rest))
  {
    hide Feed, FreeFeed, Init, Inv, Collect, Methods.Word, AllBlank, AllSpaces, Solid, Breaks, AskedFrom, BeforeTarget;
    var q, before := Init(q0, Request), BeforeTarget(blank, w, spaces);
    InitSafe(q0, Request);
    InitIs(q0);
    BeforeRun(q, NO_MESSAGES, blank, w, m, spaces);
    GetsPast(q, before, u + rest);
    LimitExact(q, before);
    FeedSafe(q, before);
    var q1, x := Feed(q, before).q, Collect(NO_MESSAGES, Feed(q, before).events);
    FeedAppend(q, before, u + rest);
    TargetTold(q1, x, u, rest);
    AskedLater(q, NO_MESSAGES, before, u + rest);
    assert UrlsOf([]) + [u] == [u];
  }

  // ----- Every buffer -----

  /** Before the end of a target nothing of its message has been told. */
  lemma NothingTold(q: Parser, x: Inbox, s: string)
    requires Inv(q) && Unread(q.state)
    requires if s == [] then Early(q.state) else !Step(q, s[0]).Next?
    ensures AskedFrom(q, x, s) == UrlsOf(x.done)
  {
    hide Feed, Step, Inv, Collect, UrlsOf, InTarget, Early;
    assert UrlsOf(x.done) + [] == UrlsOf(x.done);
    if s == [] {
      FeedEmpty(q);
      CollectNone(x);
    } else {
      StopsFirst(q, s);
      StopAsked(q, x, s);
      FeedEmpty(q);
      CollectNone(x);
      assert s[..0] == [];
      if Feed(q, s).reason.OtherProtocol? { HeadersRead(q.state); }
    }
  }

  lemma StopsFirst(q: Parser, s: string)
    requires s != [] && !Step(q, s[0]).Next?
    ensures Feed(q, s).Stopped? && Feed(q, s).at == 0
  {
    hide Step;
  }

  lemma HeadersRead(s: State)
    requires s.HeaderFieldStart? || s.HeadersAlmostDone?
    ensures !Unread(s)
  {
  }

  /** One byte further. */
  lemma OneOn(q: Parser, x: Inbox, s: string)
    requires Inv(q) && Unread(q.state) && AskedFrom(q, x, s) != UrlsOf(x.done)
    requires s == [] ==> Early(q.state)
    ensures s != [] && FreeStep(q, s[0]).Next? && Inv(FreeStep(q, s[0]).q)
    ensures var o := FreeStep(q, s[0]);
            AskedFrom(q, x, s) == AskedFrom(o.q, Collect(x, ByteEvents(o.q, o.signals, s[0])), s[1..])
  {
    hide Feed, FreeStep, Inv, Collect, AskedFrom, ByteEvents, Unread, UrlsOf;
    if s == [] || !Step(q, s[0]).Next? {
      NothingTold(q, x, s);
    } else {
      FeedOne(q, s[0]);
      FeedSafe(q, [s[0]]);
      AskedLater(q, x, [s[0]], s[1..]);
      assert [s[0]] + s[1..] == s;
    }
  }

  /** The rest of a buffer, read from `q1` with inbox `y`, tells what all of it does. */
  predicate Rests(q: Parser, x: Inbox, s: string, q1: Parser, y: Inbox, rest: string) {
    Inv(q1) && AskedFrom(q1, y, rest) == AskedFrom(q, x, s) && y.done == x.done && y.cur.url == x.cur.url
  }

  lemma StartUnread()
    ensures Unread(StartReq) && Unread(ReqMethod) && Unread(ReqSpacesBeforeUrl)
    ensures Early(StartReq) && Early(ReqMethod) && Early(ReqSpacesBeforeUrl)
  {
  }

  lemma {:induction false} FindBlank(q: Parser, x: Inbox, s: string) returns (blank: string, rest: string, q1: Parser)
    requires Inv(q) && q.state.StartReq? && AskedFrom(q, x, s) != UrlsOf(x.done)
    ensures s == blank + rest && AllBlank(blank) && (rest == [] || !(rest[0] == CR || rest[0] == LF))
    ensures q1.state.StartReq? && Rests(q, x, s, q1, x, rest)
    decreases |s|
  {
    hide FreeStep, Inv, Collect, AskedFrom, UrlsOf, Unread, Early, ByteEvents;
    StartUnread();
    if s == [] || !(s[0] == CR || s[0] == LF) {
      blank, rest, q1 := [], s, q;
    } else {
      OneOn(q, x, s);
      BlankByte(q, s[0]);
      Silently(q, s[0], x);
      var more;
      more, rest, q1 := FindBlank(FreeStep(q, s[0]).q, x, s[1..]);
      blank := [s[0]] + more;
    }
  }

  lemma Silently(q: Parser, ch: char, x: Inbox)
    requires var o := FreeStep(q, ch); o.Next? && OneByte(o, ch) == Consumed(o.q, [])
    ensures var o := FreeStep(q, ch); Collect(x, ByteEvents(o.q, o.signals, ch)) == x
  {
    hide FreeStep, ByteEvents;
    CollectNone(x);
  }

  /** In the method: the rest of its word, and the space after it. */
  lemma {:induction false} FindWord(q: Parser, x: Inbox, w: string, s: string)
    returns (v: string, rest: string, q1: Parser)
    requires Inv(q) && Methods.Tracks(q, w) && w != [] && AskedFrom(q, x, s) != UrlsOf(x.done)
    ensures s == v + [' '] + rest && Methods.Word(w + v, Methods.Family(w + v))
    ensures q1.state.ReqSpacesBeforeUrl? && Rests(q, x, s, q1, x, rest)
    decreases |s|
  {
    hide FreeStep, Inv, Collect, AskedFrom, UrlsOf, Unread, Early, ByteEvents, Methods.Readable, Methods.Family,
         Methods.Word, MethodString;
    StartUnread();
    OneOn(q, x, s);
    Methods.WordByte(q, w, s[0]);
    Methods.MethodSilent(q, s[0]);
    Silently(q, s[0], x);
    var o := FreeStep(q, s[0]);
    if Methods.EndsWord(w, s[0]) {
      v, rest, q1 := [], s[1..], o.q;
      assert w + v == w;
      Methods.WordIs(w, Methods.Family(w));
    } else {
      var more;
      more, rest, q1 := FindWord(o.q, x, w + [s[0]], s[1..]);
      v := [s[0]] + more;
      assert w + [s[0]] + more == w + v;
    }
  }

  /** From the start of a message to the space after its method. */
  lemma FindMethod(q: Parser, x: Inbox, s: string) returns (w: string, rest: string, q1: Parser, y: Inbox)
    requires Inv(q) && q.state.StartReq? && AskedFrom(q, x, s) != UrlsOf(x.done)
    requires s == [] || !(s[0] == CR || s[0] == LF)
    ensures w != [] && s == w + [' '] + rest && Methods.Word(w, Methods.Family(w))
    ensures q1.state.ReqSpacesBeforeUrl? && Rests(q, x, s, q1, y, rest)
  {
    hide FreeStep, Inv, Collect, AskedFrom, UrlsOf, Unread, Early, ByteEvents, Methods.Readable, Methods.Family,
         Methods.Word;
    StartUnread();
    OneOn(q, x, s);
    Methods.FirstLetterByte(q, s[0]);
    StartBegins(q, s[0]);
    BeginsOnly(x, FreeStep(q, s[0]).q, s[0]);
    y := Inbox(x.done, x.cur.(began := true));
    var v;
    v, rest, q1 := FindWord(FreeStep(q, s[0]).q, y, [s[0]], s[1..]);
    w := [s[0]] + v;
  }

  lemma BeginsOnly(x: Inbox, q: Parser, ch: char)
    ensures Open(q.state) == [] ==>
              Collect(x, ByteEvents(q, [MessageBegin], ch)) == Inbox(x.done, x.cur.(began := true))
  {
    hide Open;
    OpenEventsAre([], ch);
    Notices(NO_MARKS, [], 0, SummaryOf(q));
    SameWithoutFlush([MessageBegin], NO_MARKS, [], 0, ch);
    assert [Begin] + [] == [Begin];
    Collect1(x, Begin);
  }

  lemma {:induction false} FindSpaces(q: Parser, x: Inbox, s: string) returns (spaces: string, rest: string, q1: Parser)
    requires Inv(q) && q.state.ReqSpacesBeforeUrl? && AskedFrom(q, x, s) != UrlsOf(x.done)
    ensures s == spaces + rest && AllSpaces(spaces) && (rest == [] || rest[0] != ' ')
    ensures q1.state.ReqSpacesBeforeUrl? && Rests(q, x, s, q1, x, rest)
    decreases |s|
  {
    hide FreeStep, Inv, Collect, AskedFrom, UrlsOf, Unread, Early, ByteEvents;
    StartUnread();
    if s == [] || s[0] != ' ' {
      spaces, rest, q1 := [], s, q;
    } else {
      OneOn(q, x, s);
      SpaceByte(q);
      Silently(q, s[0], x);
      var more;
      more, rest, q1 := FindSpaces(FreeStep(q, s[0]).q, x, s[1..]);
      spaces := [s[0]] + more;
    }
  }

  /** In the target: the rest of it, and the byte that ends it, which is accepted. */
  lemma {:induction false} FindText(q: Parser, x: Inbox, s: string) returns (u: string, rest: string)
    requires Inv(q) && InUrl(q.state) && AskedFrom(q, x, s) != UrlsOf(x.done)
    requires q.state.ReqSpacesBeforeUrl? ==> s == [] || s[0] != ' '
    ensures s == u + rest && Solid(u) && (rest == [] || Breaks(rest[0]))
    ensures q.state.ReqSpacesBeforeUrl? ==> u != []
    ensures var r := Feed(q, s); r.Consumed? || r.at > |u|
    decreases |s|
  {
    hide FreeStep, Step, Inv, Collect, AskedFrom, UrlsOf, Unread, Early, ByteEvents, Breaks, InUrl;
    UrlUnread(q.state);
    SpacesEarly(q.state);
    if s == [] && !q.state.ReqSpacesBeforeUrl? {
      u, rest := [], [];
      FeedEmpty(q);
    } else {
      OneOn(q, x, s);
      FirstGoes(q, x, s);
      if Breaks(s[0]) {
        u, rest := [], s;
        if q.state.ReqSpacesBeforeUrl? { NoBreakFirst(q, s[0]); }
      } else {
        TextByte(q, x, s[0]);
        var o := FreeStep(q, s[0]);
        var more;
        TargetInUrl(o.q.state);
        more, rest := FindText(o.q, Collect(x, ByteEvents(o.q, o.signals, s[0])), s[1..]);
        u := [s[0]] + more;
      }
    }
  }

  lemma SpacesEarly(s: State)
    ensures s.ReqSpacesBeforeUrl? ==> Early(s)
  {
  }

  lemma TargetInUrl(s: State)
    requires InTarget(s)
    ensures InUrl(s) && !s.ReqSpacesBeforeUrl?
  {
  }

  lemma NoBreakFirst(q: Parser, ch: char)
    requires q.state.ReqSpacesBeforeUrl? && ch != ' ' && Breaks(ch)
    ensures !FreeStep(q, ch).Next?
  {
  }

  /** The byte is consumed, so a run stops after it if it stops. */
  lemma FirstGoes(q: Parser, x: Inbox, s: string)
    requires Inv(q) && Unread(q.state) && s != [] && AskedFrom(q, x, s) != UrlsOf(x.done)
    ensures Step(q, s[0]) == FreeStep(q, s[0]) && FreeStep(q, s[0]).Next?
    ensures Feed(q, s) == After(1, Feed(q, [s[0]]).events, Feed(FreeStep(q, s[0]).q, s[1..]))
  {
    hide FreeStep, Inv, AskedFrom, UrlsOf, Unread;
    if !Step(q, s[0]).Next? { NothingTold(q, x, s); }
    FeedOne(q, s[0]);
  }

  /** Every buffer from which a URL is told begins with a request line, and the first URL is
      the text in it. */
  lemma HasLine(q0: Parser, data: string)
    returns (blank: string, w: string, m: Method, spaces: string, u: string, rest: string)
    requires q0.index < 256 && Asked(Init(q0, Request), data) != []
    ensures LineParts(blank, w, m, spaces, u, rest) && data == BeforeTarget(blank, w, spaces) + (u + rest)
    ensures Asked(Init(q0, Request), data)[0] == u
  {
    hide Feed, Inv, Init, AskedFrom, Methods.Word, Methods.Family;
    var q, x := Init(q0, Request), NO_MESSAGES;
    InitSafe(q0, Request);
    InitIs(q0);
    var s, q1, t, q2, y, v, q3;
    blank, s, q1 := FindBlank(q, x, data);
    w, t, q2, y := FindMethod(q1, x, s);
    m := Methods.Family(w);
    spaces, v, q3 := FindSpaces(q2, y, t);
    u, rest := FindText(q3, y, v);
    TargetTold(q3, y, u, rest);
    Rejoin(blank, w, spaces, u, rest);
  }

  lemma Rejoin(blank: string, w: string, spaces: string, u: string, rest: string)
    ensures blank + (w + [' '] + (spaces + (u + rest))) == BeforeTarget(blank, w, spaces) + (u + rest)
  {
  }

  // ----- How many requests there are -----

  /** The messages that the application has been told of. */
  function Begun(x: Inbox): nat { |x.done| + if x.cur.began then 1 else 0 }

  /** A message that has not begun has left the parser where it was. */
  predicate BegunSoFar(q: Parser, x: Inbox) { x.cur.began || q.state.StartReq? || q.state.Dead? }

  lemma {:induction false} BegunStays(x: Inbox, es: seq<Event>)
    requires x.cur.began && forall i :: 0 <= i < |es| ==> !es[i].Complete?
    ensures Collect(x, es).cur.began
    decreases |es|
  {
    if es != [] { BegunStays(Receive(x, es[0]), es[1..]); }
  }

  lemma StartBegins(q: Parser, ch: char)
    requires q.state.StartReq?
    ensures var o := FreeStep(q, ch);
            o.Next? ==> Open(o.q.state) == []
                        && if ch == CR || ch == LF then o.q.state.StartReq? && o.signals == []
                           else o.q.state.ReqMethod? && o.signals == [MessageBegin]
  {
    hide AssignMethod;
    Methods.AssignIs(BeginMessage(Count(q)), ch);
  }

  lemma BegunStep(q: Parser, x: Inbox, ch: char)
    requires Inv(q) && Plain(q) && q.kind.Request? && BegunSoFar(q, x) && FreeStep(q, ch).Next?
    ensures var o := FreeStep(q, ch); BegunSoFar(o.q, Collect(x, ByteEvents(o.q, o.signals, ch)))
  {
    hide FreeStep, Inv, Plain, Collect, SignalEvents, OpenEvents, Open, InTarget;
    var o := FreeStep(q, ch);
    if InUrl(q.state) {
      TextByte(q, x, ch);
    } else if q.state.StartReq? {
      StartBegins(q, ch);
      BeginsOnly(x, o.q, ch);
      OpenEventsAre([], ch);
      NothingSignalled(ch);
      CollectNone(x);
    } else if q.state.Dead? {
      DeadRefuses(q, ch);
    } else {
      StepQuiet(q, ch);
      if Completes(o.signals) {
        StepPlain(q, ch);
        Protocol.KindTold(q, ch);
        if !o.q.state.Dead? { RequestBetween(o.q); }
      } else {
        QuietBytes(q.state, o.signals, o.q, ch);
        BegunStays(x, ByteEvents(o.q, o.signals, ch));
      }
    }
  }

  lemma NothingSignalled(ch: char)
    ensures SignalEvents([], ch) == []
  {
  }

  lemma DeadRefuses(q: Parser, ch: char)
    requires q.state.Dead?
    ensures FreeStep(q, ch) == Error
  {
  }

  lemma RequestBetween(q: Parser)
    requires Plain(q) && q.kind.Request? && BetweenMessages(q.state)
    ensures q.state.StartReq?
  {
    hide PhaseOf;
    StartPhases();
  }

  lemma {:induction false} BegunRun(q: Parser, x: Inbox, s: string)
    requires Inv(q) && Plain(q) && q.kind.Request? && BegunSoFar(q, x) && FreeFeed(q, s).Consumed?
    ensures var r := FreeFeed(q, s); BegunSoFar(r.q, Collect(x, r.events))
    decreases |s|
  {
    hide FreeStep, Inv, Plain, ByteEvents, BegunSoFar, Collect;
    if s == [] {
      CollectNone(x);
    } else {
      FreeStepSafe(q, s[0]);
      StepPlain(q, s[0]);
      Protocol.KindTold(q, s[0]);
      BegunStep(q, x, s[0]);
      var o := FreeStep(q, s[0]);
      var es := ByteEvents(o.q, o.signals, s[0]);
      BegunRun(o.q, Collect(x, es), s[1..]);
      CollectAppend(x, es, FreeFeed(o.q, s[1..]).events);
    }
  }

  /** No more URLs are told than messages have begun. */
  lemma AskedOnce(q0: Parser, data: string)
    requires q0.index < 256
    ensures var q := Init(q0, Request); |Asked(q, data)| <= Begun(Collect(NO_MESSAGES, Feed(q, data).events))
  {
    hide Feed, FreeFeed, Init, Inv, Plain, Collect, Early, InTarget;
    var q := Init(q0, Request);
    InitSafe(q0, Request);
    InitPlain(q0, Request);
    InitIs(q0);
    var r := Feed(q, data);
    if r.Consumed? {
      LimitExact(q, data);
      BegunRun(q, NO_MESSAGES, data);
      AtMostBegun(r.q, Collect(NO_MESSAGES, r.events));
    } else {
      StopAsked(q, NO_MESSAGES, data);
      var t := data[..r.at];
      LimitExact(q, t);
      BegunRun(q, NO_MESSAGES, t);
      AtMostBegun(Feed(q, t).q, Collect(NO_MESSAGES, Feed(q, t).events));
    }
  }

  lemma AtMostBegun(q: Parser, x: Inbox)
    requires BegunSoFar(q, x)
    ensures |AllDue(q, x)| <= Begun(x) && |Due(q, x)| <= Begun(x)
  {
  }
}
