/** The marks of `http_parser_execute`: where each open slice began in the current
    buffer, and how the slices a call delivers add up to the bytes it was fed. */
module Marks {
  import opened Syntax
  import opened M = Machine
  import opened Messages
  import opened Frames

  datatype Marks = Marks(
    headerField: Option<nat>,
    headerValue: Option<nat>,
    fragment: Option<nat>,
    queryString: Option<nat>,
    path: Option<nat>,
    url: Option<nat>)

  const NO_MARKS := Marks(None, None, None, None, None, None)

  function MarkOf(m: Marks, k: Slice): Option<nat> {
    match k
    case Url => m.url
    case Path => m.path
    case Query => m.queryString
    case Fragment => m.fragment
    case Field => m.headerField
    case Value => m.headerValue
  }

  /** The states whose slice is open; `Open` lists the same slices in flush order. */
  predicate IsOpen(s: State, k: Slice) {
    match k
    case Url =>
      || s.ReqSchema? || s.ReqSchemaSlash? || s.ReqSchemaSlashSlash? || s.ReqHost? || s.ReqPort?
      || s.ReqPath? || s.ReqQueryStringStart? || s.ReqQueryString? || s.ReqFragmentStart? || s.ReqFragment?
    case Path => s.ReqPath?
    case Query => s.ReqQueryString?
    case Fragment => s.ReqFragment?
    case Field => s.HeaderField?
    case Value => s.HeaderValue?
  }

  predicate FitsSlice(m: Option<nat>, open: bool, p: nat) {
    (m.Some? <==> open) && (m.Some? ==> m.value <= p)
  }

  /** A mark is set exactly in the states whose slice is open. */
  predicate Fits(m: Marks, s: State, p: nat) {
    && FitsSlice(m.headerField, IsOpen(s, Field), p)
    && FitsSlice(m.headerValue, IsOpen(s, Value), p)
    && FitsSlice(m.fragment, IsOpen(s, Fragment), p)
    && FitsSlice(m.queryString, IsOpen(s, Query), p)
    && FitsSlice(m.path, IsOpen(s, Path), p)
    && FitsSlice(m.url, IsOpen(s, Url), p)
  }

  /** A call that resumes inside a slice marks the first byte of the buffer. */
  lemma MarkedAtStart(m: Marks, s: State)
    requires m.headerField == if IsOpen(s, Field) then Some(0) else None
    requires m.headerValue == if IsOpen(s, Value) then Some(0) else None
    requires m.fragment == if IsOpen(s, Fragment) then Some(0) else None
    requires m.queryString == if IsOpen(s, Query) then Some(0) else None
    requires m.path == if IsOpen(s, Path) then Some(0) else None
    requires m.url == if IsOpen(s, Url) then Some(0) else None
    ensures Fits(m, s, 0)
  {
    hide IsOpen, FitsSlice;
    SliceAtStart(m.headerField, IsOpen(s, Field));
    SliceAtStart(m.headerValue, IsOpen(s, Value));
    SliceAtStart(m.fragment, IsOpen(s, Fragment));
    SliceAtStart(m.queryString, IsOpen(s, Query));
    SliceAtStart(m.path, IsOpen(s, Path));
    SliceAtStart(m.url, IsOpen(s, Url));
  }

  lemma SliceAtStart(m: Option<nat>, open: bool)
    requires m == if open then Some(0) else None
    ensures FitsSlice(m, open, 0)
  {
  }

  function MarkAfter(m: Option<nat>, open: bool, p: nat): Option<nat> {
    if !open then None else if m.Some? then m else Some(p)
  }

  /** The marks after the byte at `p` has led to state `s`. */
  function Remark(m: Marks, s: State, p: nat): Marks {
    Marks(MarkAfter(m.headerField, IsOpen(s, Field), p), MarkAfter(m.headerValue, IsOpen(s, Value), p),
          MarkAfter(m.fragment, IsOpen(s, Fragment), p), MarkAfter(m.queryString, IsOpen(s, Query), p),
          MarkAfter(m.path, IsOpen(s, Path), p), MarkAfter(m.url, IsOpen(s, Url), p))
  }

  lemma NothingOpen(m: Marks, s: State, p: nat)
    requires Open(s) == []
    ensures Remark(m, s, p) == NO_MARKS
  {
    OpenStates(s, Url);
    OpenStates(s, Path);
    OpenStates(s, Query);
    OpenStates(s, Fragment);
    OpenStates(s, Field);
    OpenStates(s, Value);
  }

  /** Which marks are set, state by state, and how the next state changes them. */
  lemma FieldMarks(m: Marks, p: nat)
    requires Fits(m, HeaderField, p)
    ensures m.headerField.Some? && m.headerField.value <= p
    ensures m == NO_MARKS.(headerField := m.headerField) && Remark(m, HeaderField, p) == m
  {
  }

  lemma ValueMarks(m: Marks, p: nat)
    requires Fits(m, HeaderValue, p)
    ensures m.headerValue.Some? && m.headerValue.value <= p
    ensures m == NO_MARKS.(headerValue := m.headerValue) && Remark(m, HeaderValue, p) == m
  {
  }

  lemma ValueStartMarks(m: Marks, p: nat)
    requires Fits(m, HeaderValueStart, p)
    ensures m == NO_MARKS && Remark(m, HeaderValue, p) == NO_MARKS.(headerValue := Some(p))
  {
  }

  lemma PathMarks(m: Marks, p: nat)
    requires Fits(m, ReqPath, p)
    ensures m.path.Some? && m.path.value <= p && m.url.Some? && m.url.value <= p
    ensures m == NO_MARKS.(path := m.path, url := m.url) && Remark(m, ReqPath, p) == m
    ensures Remark(m, ReqQueryStringStart, p) == m.(path := None) == Remark(m, ReqFragmentStart, p)
  {
  }

  lemma QueryMarks(m: Marks, p: nat)
    requires Fits(m, ReqQueryString, p)
    ensures m.queryString.Some? && m.queryString.value <= p && m.url.Some? && m.url.value <= p
    ensures m == NO_MARKS.(queryString := m.queryString, url := m.url) && Remark(m, ReqQueryString, p) == m
    ensures Remark(m, ReqFragmentStart, p) == m.(queryString := None)
  {
  }

  lemma FragmentMarks(m: Marks, p: nat)
    requires Fits(m, ReqFragment, p)
    ensures m.fragment.Some? && m.fragment.value <= p && m.url.Some? && m.url.value <= p
    ensures m == NO_MARKS.(fragment := m.fragment, url := m.url) && Remark(m, ReqFragment, p) == m
  {
  }

  function SliceFrom(m: Option<nat>, data: string, p: nat): string {
    if m.Some? && m.value <= p <= |data| then data[m.value..p] else []
  }

  /** The callbacks for the signals of the byte at `p`; bodies are delivered in bulk. */
  function Delivered(signals: seq<Signal>, m: Marks, data: string, p: nat): seq<Event> {
    if signals == [] then []
    else (match signals[0]
          case MessageBegin => [Begin]
          case Flush(k) => [Data(k, SliceFrom(MarkOf(m, k), data, p))]
          case HeadersComplete(summary) => [HeadersDone(summary)]
          case BodyByte => []
          case MessageComplete => [Complete]) + Delivered(signals[1..], m, data, p)
  }

  /** What the end of the buffer flushes: the bytes of the open slices so far. */
  function Pending(m: Marks, s: State, data: string, p: nat): seq<Event> {
    seq(|Open(s)|, i requires 0 <= i < |Open(s)| => Data(Open(s)[i], SliceFrom(MarkOf(m, Open(s)[i]), data, p)))
  }

  // ----- How a step moves slices -----

  predicate NoFlush(signals: seq<Signal>) {
    forall i :: 0 <= i < |signals| ==> !signals[i].Flush? && !signals[i].BodyByte?
  }

  /** The ways the open slices can change on one byte. */
  predicate Shape(before: seq<Slice>, signals: seq<Signal>, after: seq<Slice>) {
    || (before == [] && after == [] && (signals == [Flush(Value)] || NoFlush(signals)))
    || (signals == [] && (before == [] || before == after))
    || (signals == [] && before == [Url] && |after| == 2 && after[1] == Url && after[0] in {Path, Query, Fragment})
    || (|before| == 2 && before[1] == Url && before[0] in {Path, Query, Fragment}
        && ((signals == [Flush(before[0])] && after == [Url])
            || (signals == [Flush(Url), Flush(before[0])] && after == [])))
    || (|before| == 1 && signals == [Flush(before[0])] && after == [])
  }

  /** A byte that is not body data moves the slices in one of these ways. */
  predicate Shaped(s: State, o: Outcome) {
    match o
    case Next(q, signals) => Shape(Open(s), signals, Open(q.state))
    case Upgraded(q, signals) => NoFlush(signals) && Open(s) == []
    case _ => true
  }

  lemma FrontShape(q: Parser, ch: char)
    requires InStart(q.state) || InStatusLine(q.state) || InRequestVersion(q.state)
    ensures Open(q.state) == []
    ensures Shaped(q.state, Dispatch(q, ch))
  {
    hide StartByte, StatusLineByte, RequestVersionByte, UrlByte, HeaderNameByte, HeaderValueByte, BodyStep, EndOfHeaders;
    if InStart(q.state) { StartFrame(q, ch); StartSignals(q, ch); }
    else if InStatusLine(q.state) { StatusLineFrame(q, ch); }
    else { RequestVersionFrame(q, ch); }
  }

  lemma StartSignals(q: Parser, ch: char)
    requires InStart(q.state)
    ensures var o := StartByte(q, ch); o.Next? ==> o.signals == [] || o.signals == [MessageBegin]
  {
    hide MethodByte, AssignMethod;
    MethodFrame(q, ch);
    AssignFrame(BeginMessage(q), ch);
    AssignFrame(BeginMessage(q).(kind := Request), ch);
  }

  lemma UrlShape(q: Parser, ch: char)
    requires InUrl(q.state)
    ensures Shaped(q.state, UrlByte(q, ch))
  {
  }

  lemma EndOfHeadersShape(q: Parser, ch: char)
    requires q.state.HeadersAlmostDone?
    ensures var o := EndOfHeaders(q, ch);
            && (o.Next? ==> Open(o.q.state) == [] && NoFlush(o.signals))
            && (o.Upgraded? ==> NoFlush(o.signals))
  {
    hide ShouldKeepAlive, SummaryOf;
  }

  lemma HeaderNameShape(q: Parser, ch: char)
    requires InHeaderName(q.state)
    requires q.state.HeaderField? ==> NamePhase(q.headerState) && NameIndex(q.headerState, q.index) && q.index < 256
    ensures Shaped(q.state, HeaderNameByte(q, ch))
  {
    hide NameByte, Token, EndOfHeaders;
    if q.state.HeaderFieldStart? { EndOfHeadersShape(q.(state := HeadersAlmostDone), ch); }
    else { NameFrame(q, ch, Token(ch)); }
  }

  lemma HeaderValueShape(q: Parser, ch: char)
    requires InHeaderValue(q.state)
    requires q.state.HeaderValue? ==> ValuePhase(q.headerState) && ValueIndex(q.headerState, q.index) && q.index < 256
    ensures Shaped(q.state, HeaderValueByte(q, ch))
  {
    hide ValueByte, FirstValueByte, EndOfValue, ValuePhase, ValueIndex;
    FirstValueFrame(q, ch);
    EndOfValueFrame(q, []);
    EndOfValueFrame(q, [Flush(Value)]);
    if q.state.HeaderValue? { ValueFrame(q, ch); }
  }

  lemma BodyShape(q: Parser, ch: char)
    requires InBody(q.state) && !q.state.ChunkData? && !q.state.BodyIdentity? && !q.state.BodyIdentityEof?
    ensures Shaped(q.state, BodyStep(q, ch))
  {
    hide Unhex, Wrap;
  }

  lemma StepShape(q: Parser, ch: char)
    requires q.state.HeaderField? ==> NamePhase(q.headerState) && NameIndex(q.headerState, q.index) && q.index < 256
    requires q.state.HeaderValue? ==> ValuePhase(q.headerState) && ValueIndex(q.headerState, q.index) && q.index < 256
    requires !q.state.ChunkData? && !q.state.BodyIdentity? && !q.state.BodyIdentityEof?
    ensures Shaped(q.state, Dispatch(q, ch))
  {
    hide StartByte, StatusLineByte, RequestVersionByte, UrlByte, HeaderNameByte, HeaderValueByte, BodyStep,
         EndOfHeaders, Shape;
    if InStart(q.state) || InStatusLine(q.state) || InRequestVersion(q.state) { FrontShape(q, ch); }
    else if InUrl(q.state) { UrlShape(q, ch); }
    else if InHeaderName(q.state) { HeaderNameShape(q, ch); }
    else if InHeaderValue(q.state) { HeaderValueShape(q, ch); }
    else if InBody(q.state) { BodyShape(q, ch); }
    else if q.state.HeadersAlmostDone? { EndOfHeadersShape(q, ch); NoSlices(EndOfHeaders(q, ch)); }
  }

  lemma FreeStepShape(q: Parser, ch: char)
    requires q.state.HeaderField? ==> NamePhase(q.headerState) && NameIndex(q.headerState, q.index) && q.index < 256
    requires q.state.HeaderValue? ==> ValuePhase(q.headerState) && ValueIndex(q.headerState, q.index) && q.index < 256
    requires !q.state.ChunkData? && !q.state.BodyIdentity? && !q.state.BodyIdentityEof?
    ensures Shaped(q.state, FreeStep(q, ch))
    ensures LeavesAtEnd(q.state, FreeStep(q, ch))
  {
    hide StartByte, StatusLineByte, RequestVersionByte, UrlByte, HeaderNameByte, HeaderValueByte, BodyStep,
         Shape, NamePhase, NameIndex, ValuePhase, ValueIndex, SummaryOf;
    var c := Count(q);
    StepShape(c, ch);
    OnlyEndUpgrades(c, ch);
  }

  /** Another protocol is entered only at the end of the headers, and ends the message. */
  predicate LeavesAtEnd(s: State, o: Outcome) {
    o.Upgraded? ==>
      && o.q.upgrade && (s.HeaderFieldStart? || s.HeadersAlmostDone?)
      && o.signals == [HeadersComplete(SummaryOf(o.q)), MessageComplete]
  }

  lemma OnlyEndUpgrades(q: Parser, ch: char)
    ensures LeavesAtEnd(q.state, Dispatch(q, ch))
  {
    hide StartByte, StatusLineByte, RequestVersionByte, UrlByte, HeaderValueByte, BodyStep, NameByte, Token, SummaryOf,
         ShouldKeepAlive, NamePhase;
    if InStart(q.state) { StartFrame(q, ch); }
    else if InStatusLine(q.state) { StatusLineFrame(q, ch); }
    else if InUrl(q.state) { UrlFrame(q, ch); }
    else if InRequestVersion(q.state) { RequestVersionFrame(q, ch); }
    else if InHeaderName(q.state) { NameNext(q, ch, Token(ch)); }
    else if InHeaderValue(q.state) { HeaderValueNext(q, ch); }
    else if InBody(q.state) { BodyNext(q, ch); }
  }

  lemma NameNext(q: Parser, ch: char, c: char)
    ensures !NameByte(q, ch, c).Upgraded?
  {
  }

  lemma HeaderValueNext(q: Parser, ch: char)
    requires InHeaderValue(q.state)
    ensures !HeaderValueByte(q, ch).Upgraded?
  {
  }

  lemma BodyNext(q: Parser, ch: char)
    requires InBody(q.state)
    ensures !BodyStep(q, ch).Upgraded?
  {
  }

  lemma NoSlices(o: Outcome)
    requires o.Next? ==> NoFlush(o.signals)
    ensures o.Next? ==> Shape([], o.signals, [])
  {
  }

  // ----- Collecting slices is collecting bytes -----

  lemma AddTwice(m: Message, k: Slice, a: string, b: string)
    ensures AddData(AddData(m, k, a), k, b) == AddData(m, k, a + b)
  {
    if k.Field? {
      var m1 := AddData(m, k, a);
      assert |m1.headers| > 0 && m1.lastIsField;
      var n := |m1.headers|;
      assert m1.headers[n - 1].name + b ==
             if m.lastIsField && |m.headers| > 0 then m.headers[n - 1].name + (a + b) else a + b;
      assert AddData(m1, k, b).headers == AddData(m, k, a + b).headers;
    } else if k.Value? && |m.headers| > 0 {
      var n := |m.headers|;
      assert m.headers[n - 1].value + a + b == m.headers[n - 1].value + (a + b);
      assert AddData(AddData(m, k, a), k, b).headers == AddData(m, k, a + b).headers;
    } else {
      assert m.url + a + b == m.url + (a + b);
      assert m.path + a + b == m.path + (a + b);
      assert m.query + a + b == m.query + (a + b);
      assert m.fragment + a + b == m.fragment + (a + b);
    }
  }

  lemma Collect1(x: Inbox, a: Event)
    ensures Collect(x, [a]) == Receive(x, a)
  {
    assert [a][1..] == [];
  }

  lemma Collect2(x: Inbox, a: Event, b: Event)
    ensures Collect(x, [a, b]) == Receive(Receive(x, a), b)
  {
    assert [a, b][1..] == [b];
    Collect1(Receive(x, a), b);
  }

  lemma {:induction false} SameWithoutFlush(signals: seq<Signal>, m: Marks, data: string, p: nat, ch: char)
    requires NoFlush(signals)
    ensures Delivered(signals, m, data, p) == SignalEvents(signals, ch)
    decreases |signals|
  {
    if signals != [] {
      SameWithoutFlush(signals[1..], m, data, p, ch);
    }
  }

  lemma OneFlush(k: Slice, m: Marks, data: string, p: nat, ch: char)
    ensures SignalEvents([Flush(k)], ch) == [Data(k, [])]
    ensures Delivered([Flush(k)], m, data, p) == [Data(k, SliceFrom(MarkOf(m, k), data, p))]
  {
    assert [Flush(k)][1..] == [];
  }

  lemma TwoFlushes(j: Slice, k: Slice, m: Marks, data: string, p: nat, ch: char)
    ensures SignalEvents([Flush(j), Flush(k)], ch) == [Data(j, []), Data(k, [])]
    ensures Delivered([Flush(j), Flush(k)], m, data, p)
            == [Data(j, SliceFrom(MarkOf(m, j), data, p)), Data(k, SliceFrom(MarkOf(m, k), data, p))]
  {
    assert [Flush(j), Flush(k)][1..] == [Flush(k)];
    OneFlush(k, m, data, p, ch);
  }

  lemma NoSignals(m: Marks, data: string, p: nat)
    ensures Delivered([], m, data, p) == []
  {
  }

  lemma Notices(m: Marks, data: string, p: nat, summary: Summary)
    ensures Delivered([MessageBegin], m, data, p) == [Begin]
    ensures Delivered([HeadersComplete(summary)], m, data, p) == [HeadersDone(summary)]
    ensures Delivered([MessageComplete], m, data, p) == [Complete]
    ensures Delivered([HeadersComplete(summary), MessageComplete], m, data, p) == [HeadersDone(summary), Complete]
  {
    assert [MessageComplete][1..] == [] && [MessageBegin][1..] == [] && [HeadersComplete(summary)][1..] == [];
    assert [HeadersComplete(summary), MessageComplete][1..] == [MessageComplete];
  }

  lemma OpenMarks(m: Marks, s: State, p: nat, k: Slice)
    requires Fits(m, s, p)
    ensures k in Open(s) <==> IsOpen(s, k)
    ensures MarkOf(m, k).Some? <==> IsOpen(s, k)
    ensures MarkOf(m, k).Some? ==> MarkOf(m, k).value <= p
  {
  }

  lemma RemarkOf(m: Marks, s: State, p: nat, k: Slice)
    ensures MarkOf(Remark(m, s, p), k) == MarkAfter(MarkOf(m, k), IsOpen(s, k), p)
  {
  }

  /** An open slice has one byte more, a slice that opens has its first byte. */
  lemma SliceAfter(m: Marks, s: State, s': State, data: string, p: nat, k: Slice)
    requires p < |data| && Fits(m, s, p) && k in Open(s')
    ensures SliceFrom(MarkOf(Remark(m, s', p), k), data, p + 1) ==
            (if k in Open(s) then SliceFrom(MarkOf(m, k), data, p) else []) + [data[p]]
  {
    hide Open, IsOpen, Fits;
    OpenMarks(m, s, p, k);
    OpenStates(s', k);
    RemarkOf(m, s', p, k);
  }

  lemma OpenStates(s: State, k: Slice)
    ensures k in Open(s) <==> IsOpen(s, k)
  {
  }

  lemma AtMostTwo(s: State)
    ensures |Open(s)| <= 2
    ensures |Open(s)| == 2 ==> Open(s)[1] == Url && Open(s)[0] in {Path, Query, Fragment}
    ensures |Open(s)| == 1 ==> Open(s)[0] in {Url, Field, Value}
  {
  }

  lemma PendingIs(m: Marks, s: State, data: string, p: nat)
    ensures |Open(s)| == 0 ==> Pending(m, s, data, p) == []
    ensures |Open(s)| == 1 ==> Pending(m, s, data, p) == [Data(Open(s)[0], SliceFrom(MarkOf(m, Open(s)[0]), data, p))]
    ensures |Open(s)| == 2 ==>
              Pending(m, s, data, p) == [Data(Open(s)[0], SliceFrom(MarkOf(m, Open(s)[0]), data, p)),
                                         Data(Open(s)[1], SliceFrom(MarkOf(m, Open(s)[1]), data, p))]
  {
    hide Open, SliceFrom;
  }

  lemma OpenEventsAre(open: seq<Slice>, ch: char)
    ensures |open| == 0 ==> OpenEvents(open, ch) == []
    ensures |open| == 1 ==> OpenEvents(open, ch) == [Data(open[0], [ch])]
    ensures |open| == 2 ==> OpenEvents(open, ch) == [Data(open[0], [ch]), Data(open[1], [ch])]
  {
  }

  // The four ways to add up; `u` is what the URL slice holds, `t` what the other one does.

  lemma OneStays(x: Inbox, k: Slice, t: string, ch: char)
    ensures Collect(x, [Data(k, t + [ch])]) == Collect(Collect(x, [Data(k, t)]), [Data(k, [ch])])
  {
    hide AddData;
    AddTwice(x.cur, k, t, [ch]);
    Collect1(x, Data(k, t + [ch]));
    Collect1(x, Data(k, t));
    Collect1(Collect(x, [Data(k, t)]), Data(k, [ch]));
  }

  lemma TwoStay(x: Inbox, k: Slice, t: string, u: string, ch: char)
    requires k in {Path, Query, Fragment}
    ensures Collect(x, [Data(k, t + [ch]), Data(Url, u + [ch])])
            == Collect(Collect(x, [Data(k, t), Data(Url, u)]), [Data(k, [ch]), Data(Url, [ch])])
  {
    AddTwice(x.cur, k, t, [ch]);
    AddTwice(x.cur, Url, u, [ch]);
    Collect2(x, Data(k, t + [ch]), Data(Url, u + [ch]));
    Collect2(x, Data(k, t), Data(Url, u));
    Collect2(Collect(x, [Data(k, t), Data(Url, u)]), Data(k, [ch]), Data(Url, [ch]));
  }

  lemma UrlGoesOn(x: Inbox, k: Slice, t: string, u: string, ch: char)
    requires k in {Path, Query, Fragment}
    ensures Collect(x, [Data(k, [ch]), Data(Url, u + [ch])])
            == Collect(Collect(x, [Data(Url, u)]), [Data(k, [ch]), Data(Url, [ch])])
    ensures Collect(Collect(x, [Data(k, t)]), [Data(Url, u + [ch])])
            == Collect(Collect(x, [Data(k, t), Data(Url, u)]), [Data(k, []), Data(Url, [ch])])
  {
    AddTwice(x.cur, Url, u, [ch]);
    AddTwice(x.cur, k, t, []);
    assert t + [] == t;
    Collect2(x, Data(k, [ch]), Data(Url, u + [ch]));
    Collect1(x, Data(Url, u));
    Collect2(Collect(x, [Data(Url, u)]), Data(k, [ch]), Data(Url, [ch]));
    Collect1(x, Data(k, t));
    Collect1(Collect(x, [Data(k, t)]), Data(Url, u + [ch]));
    Collect2(x, Data(k, t), Data(Url, u));
    Collect2(Collect(x, [Data(k, t), Data(Url, u)]), Data(k, []), Data(Url, [ch]));
  }

  lemma AllClose(x: Inbox, k: Slice, t: string, u: string)
    ensures Collect(x, [Data(k, t)]) == Collect(Collect(x, [Data(k, t)]), [Data(k, [])])
    ensures k in {Path, Query, Fragment} ==>
              Collect(x, [Data(Url, u), Data(k, t)])
              == Collect(Collect(x, [Data(k, t), Data(Url, u)]), [Data(Url, []), Data(k, [])])
  {
    AddTwice(x.cur, k, t, []);
    AddTwice(x.cur, Url, u, []);
    assert t + [] == t && u + [] == u;
    Collect1(x, Data(k, t));
    Collect1(Collect(x, [Data(k, t)]), Data(k, []));
    Collect2(x, Data(Url, u), Data(k, t));
    Collect2(x, Data(k, t), Data(Url, u));
    Collect2(Collect(x, [Data(k, t), Data(Url, u)]), Data(Url, []), Data(k, []));
  }

  /** What the application would hold if the buffer ended here: it grows by the events of one byte. */
  lemma StepDelivers(x: Inbox, s: State, signals: seq<Signal>, s': State, m: Marks, data: string, p: nat)
    requires p < |data| && Fits(m, s, p) && Shape(Open(s), signals, Open(s'))
    ensures Collect(Collect(x, Delivered(signals, m, data, p)), Pending(Remark(m, s', p), s', data, p + 1))
            == Collect(Collect(x, Pending(m, s, data, p)),
                       SignalEvents(signals, data[p]) + OpenEvents(Open(s'), data[p]))
  {
    hide Open, SliceFrom, Fits, Remark, Pending, OpenEvents, AddData, IsOpen, Receive;
    var ch := data[p];
    var before, after := Open(s), Open(s');
    AtMostTwo(s');
    PendingIs(m, s, data, p);
    PendingIs(Remark(m, s', p), s', data, p + 1);
    OpenEventsAre(after, ch);
    if |after| > 0 { SliceAfter(m, s, s', data, p, after[0]); }
    if |after| > 1 { SliceAfter(m, s, s', data, p, after[1]); }
    if before == [] && after == [] {
      if NoFlush(signals) {
        SameWithoutFlush(signals, m, data, p, ch);
      } else {
        OneFlush(Value, m, data, p, ch);
        OpenMarks(m, s, p, Value);
        NoMarkNoSlice(m, Value, data, p);
      }
      assert SignalEvents(signals, ch) + [] == SignalEvents(signals, ch);
    } else if signals == [] {
      assert [] + OpenEvents(after, ch) == OpenEvents(after, ch) && [] + [ch] == [ch];
      if before == after && |after| == 1 {
        OneStays(x, after[0], SliceFrom(MarkOf(m, after[0]), data, p), ch);
      } else if before == after {
        TwoStay(x, after[0], SliceFrom(MarkOf(m, after[0]), data, p), SliceFrom(MarkOf(m, Url), data, p), ch);
      } else if before != [] {
        assert after[0] !in before;
        UrlGoesOn(x, after[0], [], SliceFrom(MarkOf(m, Url), data, p), ch);
      }
    } else {
      var k := before[0];
      var t, u := SliceFrom(MarkOf(m, k), data, p), SliceFrom(MarkOf(m, Url), data, p);
      OneFlush(k, m, data, p, ch);
      TwoFlushes(Url, k, m, data, p, ch);
      if after == [Url] {
        UrlGoesOn(x, k, t, u, ch);
      } else {
        AllClose(x, k, t, u);
        assert SignalEvents(signals, ch) + [] == SignalEvents(signals, ch);
      }
    }
  }

  lemma NoMarkNoSlice(m: Marks, k: Slice, data: string, p: nat)
    requires MarkOf(m, k).None?
    ensures SliceFrom(MarkOf(m, k), data, p) == []
  {
  }
}
