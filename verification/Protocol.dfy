/** The order of the callbacks: a message begins, then its target and its header lines,
    then its body and trailers, then it is complete. */
module Protocol {
  import opened Syntax
  import opened Machine
  import opened Messages
  import opened Marks
  import opened Frames
  import opened Invariant
  import opened Independence
  import opened Bodies

  /** What an application has been told of the message under way. */
  datatype Stage = Between | FirstLine | Lines | Body | Trailers

  /** The stage after one more callback, if it may come here.  A response may begin again
      before its first line: every CR and LF before it makes it begin. */
  function Advance(t: ParserType, st: Stage, e: Event): Option<Stage> {
    match e
    case Begin => if st.Between? || (st.FirstLine? && t.Response?) then Some(FirstLine) else None
    case Data(k, _) =>
      (match k
       case Url | Path | Query | Fragment => if st.FirstLine? && t.Request? then Some(FirstLine) else None
       case Field =>
         if st.FirstLine? || st.Lines? then Some(Lines)
         else if st.Body? || st.Trailers? then Some(Trailers) else None
       case Value => if st.Lines? || st.Trailers? then Some(st) else None)
    case HeadersDone(_) => if st.FirstLine? || st.Lines? then Some(Body) else None
    case BodyData(_) => if st.Body? then Some(Body) else None
    case Complete => if st.Body? || st.Trailers? then Some(Between) else None
  }

  function Heard(t: ParserType, st: Stage, es: seq<Event>): Option<Stage>
    decreases |es|
  {
    if es == [] then Some(st)
    else match Advance(t, st, es[0])
      case None => None
      case Some(next) => Heard(t, next, es[1..])
  }

  lemma {:induction false} HeardAppend(t: ParserType, st: Stage, a: seq<Event>, b: seq<Event>)
    ensures Heard(t, st, a + b) == match Heard(t, st, a) case None => None case Some(next) => Heard(t, next, b)
    decreases |a|
  {
    hide Advance;
    if a == [] {
      assert a + b == b;
    } else {
      assert (a + b)[0] == a[0] && (a + b)[1..] == a[1..] + b;
      var next := Advance(t, st, a[0]);
      if next.Some? { HeardAppend(t, next.value, a[1..], b); }
    }
  }

  /** What may come before the kind is known may come for either kind. */
  lemma {:induction false} HeardUntold(t: ParserType, st: Stage, es: seq<Event>)
    requires Heard(Both, st, es).Some?
    ensures Heard(t, st, es) == Heard(Both, st, es)
    decreases |es|
  {
    if es != [] {
      HeardUntold(t, Advance(Both, st, es[0]).value, es[1..]);
    }
  }

  // ----- The stages a state can be in -----

  /** A slice that is still open has not been told, so a line may not have been heard yet. */
  predicate StageIn(q: Parser, st: Stage) {
    match q.state
    case Dead => true
    case StartReqOrRes | StartReq => st.Between?
    case StartRes => st.Between? || st.FirstLine?
    case HeaderFieldStart | HeaderField | HeadersAlmostDone =>
      if q.flags.trailing then st.Body? || st.Trailers? else st.FirstLine? || st.Lines?
    case HeaderValueStart | HeaderValue | HeaderAlmostDone => if q.flags.trailing then st.Trailers? else st.Lines?
    case ChunkSizeStart | ChunkSize | ChunkParameters | ChunkSizeAlmostDone | ChunkData | ChunkDataAlmostDone
       | ChunkDataDone | BodyIdentity | BodyIdentityEof => st.Body?
    case _ => st.FirstLine? && !q.flags.trailing
  }

  /** From every stage `q` can be in, the callbacks may come, and leave a stage `q'` can be in. */
  ghost predicate Obeys(q: Parser, es: seq<Event>, q': Parser) {
    forall st :: StageIn(q, st) ==>
      var r := Heard(q'.kind, st, es); r.Some? && StageIn(q', r.value)
  }

  /** From every stage `q` can be in, the callbacks may come. */
  ghost predicate HeardAll(q: Parser, es: seq<Event>, t: ParserType) {
    forall st :: StageIn(q, st) ==> Heard(t, st, es).Some?
  }

  /** From every stage `q` can be in, the callbacks may come, and the message is complete. */
  ghost predicate Finishes(q: Parser, es: seq<Event>, t: ParserType) {
    forall st :: StageIn(q, st) ==> Heard(t, st, es) == Some(Between)
  }

  /** The kind a run may end with: it changes only when it was not known. */
  predicate Becomes(t: ParserType, t': ParserType) { t' == t || t.Both? }

  /** The callbacks of a run that ended with an error come in order. */
  ghost predicate InOrder(q: Parser, es: seq<Event>) {
    exists t :: Becomes(q.kind, t) && HeardAll(q, es, t)
  }

  /** The callbacks of a run that ended with another protocol complete the message. */
  ghost predicate Ends(q: Parser, es: seq<Event>) {
    exists t :: Becomes(q.kind, t) && Finishes(q, es, t)
  }

  lemma ObeysThen(q: Parser, es: seq<Event>, q1: Parser, es1: seq<Event>, q2: Parser)
    requires Obeys(q, es, q1) && Obeys(q1, es1, q2) && Becomes(q1.kind, q2.kind)
    ensures Obeys(q, es + es1, q2)
  {
    hide StageIn;
    forall st | StageIn(q, st)
      ensures var r := Heard(q2.kind, st, es + es1); r.Some? && StageIn(q2, r.value)
    {
      if q1.kind.Both? { HeardUntold(q2.kind, st, es); }
      HeardAppend(q2.kind, st, es, es1);
    }
  }

  lemma ObeysThenStops(q: Parser, es: seq<Event>, q1: Parser, es1: seq<Event>)
    requires Obeys(q, es, q1) && Becomes(q.kind, q1.kind)
    ensures HeardAll(q1, es1, q1.kind) ==> InOrder(q, es + es1)
    ensures Finishes(q1, es1, q1.kind) ==> Ends(q, es + es1)
  {
    hide StageIn;
    forall st | StageIn(q, st)
      ensures HeardAll(q1, es1, q1.kind) ==> Heard(q1.kind, st, es + es1).Some?
      ensures Finishes(q1, es1, q1.kind) ==> Heard(q1.kind, st, es + es1) == Some(Between)
    {
      HeardAppend(q1.kind, st, es, es1);
    }
    if HeardAll(q1, es1, q1.kind) { assert HeardAll(q, es + es1, q1.kind); }
    if Finishes(q1, es1, q1.kind) { assert Finishes(q, es + es1, q1.kind); }
  }

  /** So after a call that was consumed and one that was not. */
  lemma ObeysThenEnds(q: Parser, es: seq<Event>, q1: Parser, es1: seq<Event>)
    requires Obeys(q, es, q1) && Becomes(q.kind, q1.kind)
    ensures InOrder(q1, es1) ==> InOrder(q, es + es1)
    ensures Ends(q1, es1) ==> Ends(q, es + es1)
  {
    hide StageIn;
    if InOrder(q1, es1) {
      var t :| Becomes(q1.kind, t) && HeardAll(q1, es1, t);
      HeardLater(q, es, q1, es1, t);
      assert HeardAll(q, es + es1, t);
    }
    if Ends(q1, es1) {
      var t :| Becomes(q1.kind, t) && Finishes(q1, es1, t);
      HeardLater(q, es, q1, es1, t);
      assert Finishes(q, es + es1, t);
    }
  }

  lemma HeardLater(q: Parser, es: seq<Event>, q1: Parser, es1: seq<Event>, t: ParserType)
    requires Obeys(q, es, q1) && Becomes(q1.kind, t)
    ensures HeardAll(q1, es1, t) ==> HeardAll(q, es + es1, t)
    ensures Finishes(q1, es1, t) ==> Finishes(q, es + es1, t)
  {
    hide StageIn;
    forall st | StageIn(q, st)
      ensures HeardAll(q1, es1, t) ==> Heard(t, st, es + es1).Some?
      ensures Finishes(q1, es1, t) ==> Heard(t, st, es + es1) == Some(Between)
    {
      if q1.kind.Both? { HeardUntold(t, st, es); }
      HeardAppend(t, st, es, es1);
    }
  }

  lemma ObeysNothing(q: Parser)
    ensures Obeys(q, [], q)
  {
  }

  lemma HeardOne(t: ParserType, st: Stage, e: Event)
    ensures Heard(t, st, [e]) == Advance(t, st, e)
  {
    hide Advance;
    assert [e][1..] == [];
  }

  lemma HeardTwo(t: ParserType, st: Stage, e: Event, f: Event)
    ensures Heard(t, st, [e, f]) ==
            match Advance(t, st, e) case None => None case Some(next) => Advance(t, next, f)
  {
    hide Advance;
    assert [e, f][1..] == [f];
    if Advance(t, st, e).Some? { HeardOne(t, Advance(t, st, e).value, f); }
  }

  // ----- One byte -----

  /** The stage after the signals of a byte, whatever bytes the slices hold. */
  function Signalled(t: ParserType, st: Stage, signals: seq<Signal>): Option<Stage>
    decreases |signals|
  {
    if signals == [] then Some(st)
    else match Advance(t, st, match signals[0]
                              case MessageBegin => Begin
                              case Flush(k) => Data(k, [])
                              case HeadersComplete(summary) => HeadersDone(summary)
                              case BodyByte => BodyData([])
                              case MessageComplete => Complete)
      case None => None
      case Some(next) => Signalled(t, next, signals[1..])
  }

  lemma {:induction false} HeardSignals(t: ParserType, st: Stage, signals: seq<Signal>, m: Marks, data: string, p: nat)
    requires forall i :: 0 <= i < |signals| ==> !signals[i].BodyByte?
    ensures Heard(t, st, Delivered(signals, m, data, p)) == Signalled(t, st, signals)
    decreases |signals|
  {
    hide SliceFrom;
    if signals != [] {
      var es := Delivered(signals, m, data, p);
      var next := Advance(t, st, es[0]);
      assert es[1..] == Delivered(signals[1..], m, data, p);
      if next.Some? { HeardSignals(t, next.value, signals[1..], m, data, p); }
    }
  }

  /** The signals may come in stage `st` of state `q`, and leave a stage of the next state. */
  predicate Follows(q: Parser, st: Stage, o: Outcome) {
    match o
    case Next(q', signals) => (var r := Signalled(q'.kind, st, signals); r.Some? && StageIn(q', r.value))
    case Upgraded(_, signals) => Signalled(q.kind, st, signals) == Some(Between)
    case _ => true
  }

  lemma OneSignalled(t: ParserType, st: Stage, a: Signal)
    ensures Signalled(t, st, []) == Some(st)
    ensures a.MessageBegin? ==> Signalled(t, st, [a]) == Advance(t, st, Begin)
    ensures a.Flush? ==> Signalled(t, st, [a]) == Advance(t, st, Data(a.slice, []))
    ensures a.HeadersComplete? ==> Signalled(t, st, [a]) == Advance(t, st, HeadersDone(a.summary))
    ensures a.MessageComplete? ==> Signalled(t, st, [a]) == Advance(t, st, Complete)
  {
    assert [a][1..] == [];
  }

  lemma KindsIn(q: Parser)
    requires Plain(q)
    ensures q.state.StartReqOrRes? || q.state.ResOrRespH? ==> q.kind.Both?
    ensures q.state.StartReq? || q.state.ReqMethod? ==> q.kind.Request?
    ensures q.state.StartRes? ==> q.kind.Response?
  {
    hide PhaseOf;
    StartPhases();
  }

  lemma UrlKinds(q: Parser)
    requires Plain(q) && InUrl(q.state)
    ensures q.kind.Request?
  {
    hide PhaseOf;
    UrlPhase(q.state);
  }

  lemma StartFollows(q: Parser, st: Stage, ch: char)
    requires InStart(q.state) && Plain(q) && StageIn(q, st)
    ensures Follows(q, st, StartByte(q, ch))
  {
    hide MethodByte, AssignMethod, Plain, Signalled;
    KindsIn(q);
    MethodFrame(q, ch);
    AssignFrame(BeginMessage(q), ch);
    AssignFrame(BeginMessage(q).(kind := Request), ch);
    OneSignalled(Request, st, MessageBegin);
    OneSignalled(q.kind, st, MessageBegin);
    OneSignalled(Response, st, MessageBegin);
  }

  lemma StatusLineFollows(q: Parser, st: Stage, ch: char)
    requires InStatusLine(q.state) && StageIn(q, st)
    ensures Follows(q, st, StatusLineByte(q, ch))
  {
    hide StatusLineByte;
    StatusLineFrame(q, ch);
  }

  lemma RequestVersionFollows(q: Parser, st: Stage, ch: char)
    requires InRequestVersion(q.state) && StageIn(q, st)
    ensures Follows(q, st, RequestVersionByte(q, ch))
  {
    hide RequestVersionByte;
    RequestVersionFrame(q, ch);
  }

  lemma UrlSignals(q: Parser, ch: char)
    requires InUrl(q.state)
    ensures var o := UrlByte(q, ch);
            o.Next? ==> |o.signals| <= 2 && forall i :: 0 <= i < |o.signals| ==>
              o.signals[i].Flush? && !o.signals[i].slice.Field? && !o.signals[i].slice.Value?
  {
  }

  lemma {:induction false} TargetSignals(signals: seq<Signal>)
    requires forall i :: 0 <= i < |signals| ==>
               signals[i].Flush? && !signals[i].slice.Field? && !signals[i].slice.Value?
    ensures Signalled(Request, FirstLine, signals) == Some(FirstLine)
    decreases |signals|
  {
    if signals != [] { TargetSignals(signals[1..]); }
  }

  lemma UrlFollows(q: Parser, st: Stage, ch: char)
    requires InUrl(q.state) && Plain(q) && StageIn(q, st)
    ensures Follows(q, st, UrlByte(q, ch))
  {
    hide UrlByte, Plain, Signalled;
    UrlKinds(q);
    UrlFrame(q, ch);
    UrlSignals(q, ch);
    var o := UrlByte(q, ch);
    if o.Next? { TargetSignals(o.signals); }
  }

  lemma EndFollows(q: Parser, st: Stage, ch: char)
    requires q.state.HeadersAlmostDone? && StageIn(q, st)
    ensures Follows(q, st, EndOfHeaders(q, ch))
  {
    hide SummaryOf, ShouldKeepAlive, Signalled;
    var s := SummaryOf(q.(nread := 0, upgrade := q.upgrade || q.flags.upgrade || q.meth == CONNECT));
    OneSignalled(q.kind, st, MessageComplete);
    OneSignalled(q.kind, st, HeadersComplete(s));
    if !q.flags.trailing { TwoSignalled(q.kind, st, s); }
  }

  lemma TwoSignalled(t: ParserType, st: Stage, s: Summary)
    requires st.FirstLine? || st.Lines?
    ensures Signalled(t, st, [HeadersComplete(s), MessageComplete]) == Some(Between)
  {
    assert [HeadersComplete(s), MessageComplete][1..] == [MessageComplete];
    OneSignalled(t, Body, MessageComplete);
  }

  lemma NameMoves(q: Parser, ch: char)
    requires q.state.HeaderField? && Inv(q)
    ensures var o := HeaderNameByte(q, ch);
            && !o.Upgraded?
            && (o.Next? ==>
                  && o.q.kind == q.kind && o.q.flags == q.flags
                  && ((o.signals == [] && o.q.state.HeaderField?)
                      || (o.signals == [Flush(Field)]
                          && (o.q.state.HeaderFieldStart? || o.q.state.HeaderValueStart? || o.q.state.HeaderAlmostDone?))))
  {
    hide NameByte, Token, EndOfHeaders, Inv;
    HeaderPhases(q);
    NameFrame(q, ch, Token(ch));
  }

  lemma LineStartFollows(q: Parser, st: Stage, ch: char)
    requires q.state.HeaderFieldStart? && StageIn(q, st)
    ensures Follows(q, st, HeaderNameByte(q, ch))
  {
    hide Token, EndOfHeaders, Signalled;
    OneSignalled(q.kind, st, Flush(Field));
    EndFollows(q.(state := HeadersAlmostDone), st, ch);
  }

  lemma HeaderNameFollows(q: Parser, st: Stage, ch: char)
    requires InHeaderName(q.state) && Inv(q) && StageIn(q, st)
    ensures Follows(q, st, HeaderNameByte(q, ch))
  {
    hide HeaderNameByte, Inv, Signalled;
    if q.state.HeaderFieldStart? {
      LineStartFollows(q, st, ch);
    } else {
      NameMoves(q, ch);
      OneSignalled(q.kind, st, Flush(Field));
    }
  }

  lemma HeaderValueFollows(q: Parser, st: Stage, ch: char)
    requires InHeaderValue(q.state) && Inv(q) && StageIn(q, st)
    ensures Follows(q, st, HeaderValueByte(q, ch))
  {
    hide HeaderValueByte, Inv, Signalled;
    ValueMoves(q, ch);
    OneSignalled(q.kind, st, Flush(Value));
  }

  lemma ChunkMoves(q: Parser, ch: char)
    requires InBody(q.state) && !q.state.BodyIdentity? && !q.state.BodyIdentityEof? && !q.state.ChunkData?
    ensures var o := BodyStep(q, ch);
            && !o.Upgraded?
            && (o.Next? ==> o.signals == []
                            && (InBody(o.q.state) || (o.q.state.HeaderFieldStart? && o.q.flags.trailing)))
  {
    hide Unhex, Wrap;
  }

  lemma ChunkFollows(q: Parser, st: Stage, ch: char)
    requires InBody(q.state) && !q.state.BodyIdentity? && !q.state.BodyIdentityEof? && !q.state.ChunkData?
    requires StageIn(q, st)
    ensures Follows(q, st, BodyStep(q, ch))
  {
    hide BodyStep;
    ChunkMoves(q, ch);
  }

  lemma StepFollows(q: Parser, st: Stage, ch: char)
    requires Inv(q) && Plain(q) && StageIn(q, st)
    requires !q.state.ChunkData? && !q.state.BodyIdentity?
    ensures Follows(q, st, FreeStep(q, ch))
  {
    hide StartByte, StatusLineByte, UrlByte, RequestVersionByte, HeaderNameByte, HeaderValueByte, BodyStep, EndOfHeaders,
         Inv, Same, Signalled;
    NeverEof(q);
    CountSame(q, q);
    var c := Count(q);
    SameKind(q, c, st);
    if InStart(q.state) { StartFollows(c, st, ch); }
    else if InStatusLine(q.state) { StatusLineFollows(c, st, ch); }
    else if InUrl(q.state) { UrlFollows(c, st, ch); }
    else if InRequestVersion(q.state) { RequestVersionFollows(c, st, ch); }
    else if InHeaderName(q.state) { CountSafe(q); HeaderNameFollows(c, st, ch); }
    else if InHeaderValue(q.state) { CountSafe(q); HeaderValueFollows(c, st, ch); }
    else if InBody(q.state) { ChunkFollows(c, st, ch); }
    else if q.state == HeadersAlmostDone { EndFollows(c, st, ch); }
  }

  lemma SameKind(q: Parser, c: Parser, st: Stage)
    requires c == q.(nread := c.nread, index := c.index) && StageIn(q, st)
    ensures StageIn(c, st)
  {
  }

  // ----- One turn of the loop, in the callbacks it makes -----

  lemma NoBodyBytes(q: Parser, ch: char)
    requires !q.state.ChunkData? && !q.state.BodyIdentity? && !q.state.BodyIdentityEof?
    requires Inv(q)
    ensures var o := FreeStep(q, ch);
            o.Next? || o.Upgraded? ==> forall i :: 0 <= i < |o.signals| ==> !o.signals[i].BodyByte?
  {
    hide FreeStep, Open, NamePhase, NameIndex, ValuePhase, ValueIndex, Inv;
    HeaderPhases(q);
    FreeStepShape(q, ch);
  }

  lemma KindTold(q: Parser, ch: char)
    requires Inv(q) && Plain(q)
    ensures var o := FreeStep(q, ch); o.Next? ==> o.q.kind == q.kind || q.kind.Both?
  {
    hide StartByte, StatusLineByte, UrlByte, RequestVersionByte, HeaderNameByte, HeaderValueByte, BodyStep, EndOfHeaders,
         Inv, Same, NameByte, Token;
    var c := Count(q);
    if InStart(q.state) { PlainKind(q); StartKind(c, ch); }
    else if InStatusLine(q.state) { StatusLineFrame(c, ch); }
    else if InUrl(q.state) { UrlFrame(c, ch); }
    else if InRequestVersion(q.state) { RequestVersionFrame(c, ch); }
    else if InHeaderName(q.state) { CountSafe(q); CountSame(q, q); HeaderNamePlain(c, ch); }
    else if InHeaderValue(q.state) { HeaderValuePlain(c, ch); }
    else if InBody(q.state) { BodyPlain(c, ch); }
    else if q.state == HeadersAlmostDone { CountSame(q, q); EndPlain(c, ch); }
  }

  lemma PlainKind(q: Parser)
    requires Plain(q)
    ensures HasKind(LiveIn(PhaseOf(q.state)).kinds, q.kind)
  {
    hide PhaseOf, LiveIn, HasKind;
  }

  lemma StartKind(q: Parser, ch: char)
    requires InStart(q.state) && HasKind(LiveIn(PhaseOf(q.state)).kinds, q.kind)
    ensures var o := StartByte(q, ch); o.Next? ==> o.q.kind == q.kind || q.kind.Both?
  {
    hide MethodByte, AssignMethod, PhaseOf;
    StartPhases();
    MethodFrame(q, ch);
    AssignFrame(BeginMessage(q), ch);
    AssignFrame(BeginMessage(q).(kind := Request), ch);
  }

  /** The callbacks of one byte come in order. */
  lemma StepObeys(q: Parser, ch: char, m: Marks, data: string, p: nat)
    requires Inv(q) && Plain(q) && !q.state.ChunkData? && !q.state.BodyIdentity?
    ensures var o := FreeStep(q, ch);
            o.Next? ==>
              Obeys(q, Delivered(o.signals, m, data, p), o.q) && Plain(o.q) && Becomes(q.kind, o.q.kind)
    ensures var o := FreeStep(q, ch);
            o.Upgraded? ==> Finishes(q, Delivered(o.signals, m, data, p), q.kind)
  {
    hide FreeStep, Inv, Plain, StageIn, Heard, Signalled, Delivered;
    NeverEof(q);
    NoBodyBytes(q, ch);
    StepPlain(q, ch);
    KindTold(q, ch);
    var o := FreeStep(q, ch);
    if o.Next? {
      forall st | StageIn(q, st)
        ensures var r := Heard(o.q.kind, st, Delivered(o.signals, m, data, p)); r.Some? && StageIn(o.q, r.value)
      {
        StepFollows(q, st, ch);
        HeardSignals(o.q.kind, st, o.signals, m, data, p);
      }
    } else if o.Upgraded? {
      forall st | StageIn(q, st) ensures Heard(q.kind, st, Delivered(o.signals, m, data, p)) == Some(Between) {
        StepFollows(q, st, ch);
        HeardSignals(q.kind, st, o.signals, m, data, p);
      }
    }
  }

  // ----- The other turns of the loop -----

  /** A parser that is dead, or that still knows what it reads. */
  predicate Settled(q: Parser) { q.state.Dead? || Plain(q) }

  lemma PlainSettles(q: Parser)
    requires Plain(q)
    ensures Settled(q)
  {
  }

  /** The parser's own first callback, when the byte after it is refused. */
  lemma RefusedStart(q: Parser)
    requires Plain(q) && BetweenMessages(q.state)
    ensures HeardAll(q, [Begin], q.kind)
  {
    hide Plain, Heard;
    KindsIn(q);
    forall st | StageIn(q, st) ensures Heard(q.kind, st, [Begin]).Some? {
      HeardOne(q.kind, st, Begin);
    }
  }

  lemma Silence(q: Parser)
    ensures HeardAll(q, [], q.kind)
  {
  }

  function BodyCallbacks(bytes: string, last: bool): seq<Event> {
    if last then [BodyData(bytes), Complete] else [BodyData(bytes)]
  }

  lemma BodyObeys(q: Parser, bytes: string, last: bool, q': Parser)
    requires q.state.BodyIdentity? || q.state.ChunkData?
    requires q'.kind == q.kind
    requires if last then q'.state.Dead? || q'.state.StartReq? || q'.state.StartRes?
             else q'.state.BodyIdentity? || q'.state.ChunkData? || q'.state.ChunkDataAlmostDone?
    ensures Obeys(q, BodyCallbacks(bytes, last), q')
  {
    hide Heard;
    forall st | StageIn(q, st)
      ensures var r := Heard(q'.kind, st, BodyCallbacks(bytes, last)); r.Some? && StageIn(q', r.value)
    {
      HeardOne(q'.kind, st, BodyData(bytes));
      HeardTwo(q'.kind, st, BodyData(bytes), Complete);
    }
  }

  lemma BodySettled(q: Parser, n: nat)
    requires Settled(q) && n <= q.contentLength
    ensures q.state.BodyIdentity? ==> Settled(AfterIdentity(q, n))
    ensures q.state.ChunkData? ==> Settled(AfterChunkData(q, n))
  {
    hide PhaseOf;
    StartPhases();
    BodyPhase(BodyIdentity);
    BodyPhase(ChunkData);
    BodyPhase(ChunkDataAlmostDone);
  }

  lemma OpenWhere(s: State)
    ensures s.HeaderField? ==> Open(s) == [Field]
    ensures s.HeaderValue? ==> Open(s) == [Value]
    ensures Open(s) != [] && !s.HeaderField? && !s.HeaderValue? ==>
              InUrl(s) && |Open(s)| <= 2 && (forall i :: 0 <= i < |Open(s)| ==> Open(s)[i] in {Url, Path, Query, Fragment})
  {
  }

  lemma PendingHeard(q: Parser, st: Stage, m: Marks, data: string, p: nat)
    requires Settled(q) && StageIn(q, st)
    ensures var r := Heard(q.kind, st, Pending(m, q.state, data, p)); r.Some? && StageIn(q, r.value)
  {
    hide Heard, SliceFrom, Plain, Pending, Open;
    PendingIs(m, q.state, data, p);
    OpenWhere(q.state);
    AtMostTwo(q.state);
    var es := Pending(m, q.state, data, p);
    if |es| == 0 {
      HeardNothing(q.kind, st);
    } else if |es| == 1 {
      if InUrl(q.state) { UrlKinds(q); }
      HeardOne(q.kind, st, es[0]);
    } else {
      UrlKinds(q);
      HeardTwo(q.kind, st, es[0], es[1]);
    }
  }

  lemma HeardNothing(t: ParserType, st: Stage)
    ensures Heard(t, st, []) == Some(st)
  {
  }

  /** The slices flushed at the end of a buffer. */
  lemma PendingObeys(q: Parser, m: Marks, data: string, p: nat)
    requires Settled(q)
    ensures Obeys(q, Pending(m, q.state, data, p), q)
  {
    hide Heard, StageIn, Settled, Pending;
    forall st | StageIn(q, st)
      ensures var r := Heard(q.kind, st, Pending(m, q.state, data, p)); r.Some? && StageIn(q, r.value)
    {
      PendingHeard(q, st, m, data, p);
    }
  }

  lemma NarrowObeys(q: Parser, es: seq<Event>, q': Parser)
    requires Obeys(q, es, q') && Settled(q')
    ensures Obeys(q, es, Narrow(q')) && Settled(Narrow(q')) && Narrow(q').kind == q'.kind
  {
    hide Heard, PhaseOf;
    forall st | StageIn(q, st)
      ensures var r := Heard(q'.kind, st, es); r.Some? && StageIn(Narrow(q'), r.value)
    {
      SameKind(q', Narrow(q'), Heard(q'.kind, st, es).value);
    }
  }

  // ----- What the order means for one message -----

  predicate AllLines(es: seq<Event>) { forall i :: 0 <= i < |es| ==> es[i].Data? && (es[i].slice.Field? || es[i].slice.Value?) }

  predicate AllTarget(es: seq<Event>) { forall i :: 0 <= i < |es| ==> es[i].Data? && !es[i].slice.Field? && !es[i].slice.Value? }

  predicate AllBody(es: seq<Event>) { forall i :: 0 <= i < |es| ==> es[i].BodyData? }

  predicate AllBegin(es: seq<Event>) { forall i :: 0 <= i < |es| ==> es[i].Begin? }

  /** The callbacks of one message, from one of its stages to its end. */
  predicate Ending(t: ParserType, st: Stage, es: seq<Event>) {
    && es != [] && Heard(t, st, es) == Some(Between) && !st.Between?
    && forall i :: 0 <= i < |es| - 1 ==> !es[i].Complete?
  }

  lemma EndingNext(t: ParserType, st: Stage, es: seq<Event>)
    requires Ending(t, st, es)
    ensures Advance(t, st, es[0]).Some?
    ensures es[0].Complete? <==> |es| == 1
    ensures |es| > 1 ==> Ending(t, Advance(t, st, es[0]).value, es[1..])
  {
    if |es| == 1 {
      HeardOne(t, st, es[0]);
      assert es == [es[0]];
    } else {
      assert Heard(t, st, es) == Heard(t, Advance(t, st, es[0]).value, es[1..]);
      assert !es[0].Complete?;
      forall i | 0 <= i < |es[1..]| - 1 ensures !es[1..][i].Complete? { assert es[1..][i] == es[i + 1]; }
    }
  }

  lemma {:induction false} TrailersEnd(t: ParserType, es: seq<Event>)
    requires Ending(t, Trailers, es)
    ensures AllLines(es[..|es| - 1]) && es[|es| - 1].Complete?
    decreases |es|
  {
    hide Heard;
    EndingNext(t, Trailers, es);
    if |es| > 1 {
      TrailersEnd(t, es[1..]);
      assert es[..|es| - 1] == [es[0]] + es[1..][..|es| - 2];
    }
  }

  lemma {:induction false} BodyEnds(t: ParserType, es: seq<Event>) returns (n: nat)
    requires Ending(t, Body, es)
    ensures n < |es| && AllBody(es[..n]) && AllLines(es[n..|es| - 1]) && es[|es| - 1].Complete?
    decreases |es|
  {
    hide Heard;
    EndingNext(t, Body, es);
    if es[0].BodyData? {
      var k := BodyEnds(t, es[1..]);
      n := k + 1;
      assert es[..n] == [es[0]] + es[1..][..k] && es[n..|es| - 1] == es[1..][k..|es| - 2];
    } else {
      n := 0;
      if |es| > 1 {
        TrailersEnd(t, es[1..]);
        assert es[..|es| - 1] == [es[0]] + es[1..][..|es| - 2];
      }
    }
  }

  lemma {:induction false} LinesEnd(t: ParserType, es: seq<Event>) returns (h: nat, n: nat)
    requires Ending(t, Lines, es)
    ensures h < n < |es| && AllLines(es[..h]) && es[h].HeadersDone? && AllBody(es[h + 1..n])
    ensures AllLines(es[n..|es| - 1]) && es[|es| - 1].Complete?
    decreases |es|
  {
    hide Heard;
    EndingNext(t, Lines, es);
    if es[0].HeadersDone? {
      var k := BodyEnds(t, es[1..]);
      h, n := 0, k + 1;
      assert es[1..n] == es[1..][..k] && es[n..|es| - 1] == es[1..][k..|es| - 2];
    } else {
      var g, k := LinesEnd(t, es[1..]);
      h, n := g + 1, k + 1;
      assert es[..h] == [es[0]] + es[1..][..g] && es[h + 1..n] == es[1..][g + 1..k];
      assert es[n..|es| - 1] == es[1..][k..|es| - 2];
    }
  }

  /** A message, callback by callback: more begins up to `b`, its target up to `u`, its
      header lines up to the notice at `h`, its body up to `n`, its trailers, its end. */
  predicate Parts(t: ParserType, es: seq<Event>, b: nat, u: nat, h: nat, n: nat) {
    && b <= u <= h < n < |es| && AllBegin(es[..b]) && AllTarget(es[b..u]) && AllLines(es[u..h])
    && es[h].HeadersDone? && AllBody(es[h + 1..n]) && AllLines(es[n..|es| - 1]) && es[|es| - 1].Complete?
    && (b > 0 ==> t.Response?) && (u > b ==> t.Request?)
  }

  lemma Shifted(es: seq<Event>, i: nat, j: nat)
    requires i <= j < |es|
    ensures es[i + 1..j + 1] == es[1..][i..j]
    ensures es[..j + 1] == [es[0]] + es[1..][..j]
  {
  }

  lemma PartsBegin(t: ParserType, es: seq<Event>, b: nat, u: nat, h: nat, n: nat)
    requires es != [] && Parts(t, es[1..], b, u, h, n) && es[0].Begin? && t.Response?
    ensures Parts(t, es, b + 1, u + 1, h + 1, n + 1)
  {
    Shifted(es, 0, b);
    Shifted(es, b, u);
    Shifted(es, u, h);
    Shifted(es, h + 1, n);
    Shifted(es, n, |es| - 2);
  }

  lemma PartsTarget(t: ParserType, es: seq<Event>, u: nat, h: nat, n: nat)
    requires es != [] && Parts(t, es[1..], 0, u, h, n) && AllTarget([es[0]]) && t.Request?
    ensures Parts(t, es, 0, u + 1, h + 1, n + 1)
  {
    Shifted(es, 0, u);
    Shifted(es, u, h);
    Shifted(es, h + 1, n);
    Shifted(es, n, |es| - 2);
    assert es[0] == [es[0]][0];
  }

  /** What is heard in order, from the begin of a message to its end, are its parts. */
  lemma {:induction false} MessageCalls(t: ParserType, es: seq<Event>) returns (b: nat, u: nat, h: nat, n: nat)
    requires Ending(t, FirstLine, es)
    ensures Parts(t, es, b, u, h, n)
    decreases |es|
  {
    hide Heard, Parts;
    EndingNext(t, FirstLine, es);
    if es[0].HeadersDone? {
      var k := BodyEnds(t, es[1..]);
      b, u, h, n := 0, 0, 0, k + 1;
      PartsBody(t, es, k);
    } else if es[0].Data? && es[0].slice.Field? {
      var g, k := LinesEnd(t, es[1..]);
      b, u, h, n := 0, 0, g + 1, k + 1;
      PartsLines(t, es, g, k);
    } else {
      b, u, h, n := MessageCalls(t, es[1..]);
      if es[0].Begin? {
        PartsBegin(t, es, b, u, h, n);
        b := b + 1;
      } else {
        NoMoreBegins(t, es[1..], b, u, h, n);
        PartsTarget(t, es, u, h, n);
      }
      u, h, n := u + 1, h + 1, n + 1;
    }
  }

  lemma NoMoreBegins(t: ParserType, es: seq<Event>, b: nat, u: nat, h: nat, n: nat)
    requires Parts(t, es, b, u, h, n) && t.Request?
    ensures b == 0
  {
  }

  lemma PartsBody(t: ParserType, es: seq<Event>, k: nat)
    requires |es| > 1 && es[0].HeadersDone? && k < |es| - 1
    requires AllBody(es[1..][..k]) && AllLines(es[1..][k..|es| - 2]) && es[|es| - 1].Complete?
    ensures Parts(t, es, 0, 0, 0, k + 1)
  {
    Shifted(es, 0, k);
    Shifted(es, k, |es| - 2);
  }

  lemma PartsLines(t: ParserType, es: seq<Event>, g: nat, k: nat)
    requires |es| > 1 && AllLines([es[0]]) && g < k < |es| - 1
    requires AllLines(es[1..][..g]) && es[g + 1].HeadersDone? && AllBody(es[1..][g + 1..k])
    requires AllLines(es[1..][k..|es| - 2]) && es[|es| - 1].Complete?
    ensures Parts(t, es, 0, 0, g + 1, k + 1)
  {
    Shifted(es, 0, g);
    Shifted(es, g + 1, k);
    Shifted(es, k, |es| - 2);
    assert es[0] == [es[0]][0];
  }

  /** From a start state every callback of a call, or of many, is heard in order. */
  lemma HeardFromStart(q: Parser, es: seq<Event>, q': Parser)
    requires Obeys(q, es, q') && BetweenMessages(q.state)
    ensures Heard(q'.kind, Between, es).Some?
  {
    assert StageIn(q, Between);
  }
}
