/** What the parser remembers.  Two parsers that agree on the fields their state can
    still read do the same on every input, whatever the other fields hold; so a parser
    that was just initialised, or that just finished a message, owes nothing to its past. */
module Independence {
  import opened Syntax
  import opened Machine
  import opened Messages
  import opened Frames
  import opened Invariant
  import opened Split
  import opened Bodies

  // ----- Which fields a state can still read -----

  /** What a state knows about the kind of message. */
  datatype Kinds = AnyKind | Untold | NotBoth | Requests | Responses

  predicate HasKind(k: Kinds, t: ParserType) {
    match k
    case AnyKind => true
    case Untold => t.Both?
    case NotBoth => !t.Both?
    case Requests => t.Request?
    case Responses => t.Response?
  }

  /** The fields that a state can still read.  `framing` is the flags and the length;
      `status` and `name` matter only to a response and to a header line. */
  datatype Live = Live(kinds: Kinds, meth: bool, framing: bool, major: bool, minor: bool, status: bool,
                       name: bool, index: bool)

  datatype Phase =
    | Over | AnyStart | ResponseStart | RequestStart
    | AnyFirst | ResponseFirst | ResponseMajor | ResponseMinor | ResponseStatus
    | RequestFirst | RequestMethod | RequestMajor | RequestMinor
    | Later | EndsLine | InLine

  function PhaseOf(s: State): Phase {
    match s
    case Dead => Over
    case StartReqOrRes => AnyStart
    case StartRes => ResponseStart
    case StartReq => RequestStart
    case ReqMethod => RequestMethod
    case ResOrRespH => AnyFirst
    case ResH | ResHT | ResHTT | ResHTTP | ResFirstHttpMajor => ResponseFirst
    case ResHttpMajor | ResFirstHttpMinor => ResponseMajor
    case ResHttpMinor | ResFirstStatusCode => ResponseMinor
    case ResStatusCode | ResStatus | ResLineAlmostDone => ResponseStatus
    case ReqSpacesBeforeUrl | ReqSchema | ReqSchemaSlash | ReqSchemaSlashSlash | ReqHost | ReqPort | ReqPath
       | ReqQueryStringStart | ReqQueryString | ReqFragmentStart | ReqFragment
       | ReqHttpStart | ReqHttpH | ReqHttpHT | ReqHttpHTT | ReqHttpHTTP | ReqFirstHttpMajor => RequestFirst
    case ReqHttpMajor | ReqFirstHttpMinor => RequestMajor
    case ReqHttpMinor | ReqLineAlmostDone => RequestMinor
    case HeaderField | HeaderValue => InLine
    case HeaderValueStart | HeaderAlmostDone => EndsLine
    case _ => Later
  }

  function LiveIn(p: Phase): Live {
    match p
    case Over => Live(AnyKind, true, false, false, false, false, false, false)
    case AnyStart => Live(Untold, true, false, false, false, false, false, false)
    case ResponseStart => Live(Responses, true, false, false, false, false, false, false)
    case RequestStart => Live(Requests, false, false, false, false, false, false, false)
    case AnyFirst => Live(Untold, true, true, false, false, false, false, false)
    case ResponseFirst => Live(Responses, true, true, false, false, false, false, false)
    case ResponseMajor => Live(Responses, true, true, true, false, false, false, false)
    case ResponseMinor => Live(Responses, true, true, true, true, false, false, false)
    case ResponseStatus => Live(Responses, true, true, true, true, true, false, false)
    case RequestFirst => Live(Requests, true, true, false, false, false, false, false)
    case RequestMethod => Live(Requests, true, true, false, false, false, false, true)
    case RequestMajor => Live(Requests, true, true, true, false, false, false, false)
    case RequestMinor => Live(Requests, true, true, true, true, false, false, false)
    case Later => Live(NotBoth, true, true, true, true, true, false, false)
    case EndsLine => Live(NotBoth, true, true, true, true, true, true, false)
    case InLine => Live(NotBoth, true, true, true, true, true, true, true)
  }

  predicate SameLive(l: Live, q1: Parser, q2: Parser) {
    && q1.kind == q2.kind && HasKind(l.kinds, q1.kind) && q1.upgrade == q2.upgrade
    && (l.meth ==> q1.meth == q2.meth || (q1.kind.Response? && !q1.meth.CONNECT? && !q2.meth.CONNECT?))
    && (l.framing ==> q1.flags == q2.flags && q1.contentLength == q2.contentLength)
    && (l.major ==> q1.httpMajor == q2.httpMajor)
    && (l.minor ==> q1.httpMinor == q2.httpMinor)
    && (l.status && q1.kind.Response? ==> q1.statusCode == q2.statusCode)
    && (l.name ==> q1.headerState == q2.headerState)
    && (l.index ==> q1.index == q2.index)
  }

  /** The parsers agree on what their state can still read. */
  predicate Same(q1: Parser, q2: Parser) {
    q1.state == q2.state && SameLive(LiveIn(PhaseOf(q1.state)), q1, q2)
  }

  /** The same callbacks, and the same again afterwards. */
  predicate SameOutcome(o1: Outcome, o2: Outcome) {
    match o1
    case Next(q1, s1) => o2.Next? && s1 == o2.signals && Same(q1, o2.q)
    case Upgraded(_, s1) => o2.Upgraded? && s1 == o2.signals
    case _ => o1 == o2
  }

  // ----- Each group -----

  lemma StatusLinePhases()
    ensures PhaseOf(ResH) == ResponseFirst && PhaseOf(ResHT) == ResponseFirst && PhaseOf(ResHTT) == ResponseFirst
    ensures PhaseOf(ResHTTP) == ResponseFirst && PhaseOf(ResFirstHttpMajor) == ResponseFirst
    ensures PhaseOf(ResHttpMajor) == ResponseMajor && PhaseOf(ResFirstHttpMinor) == ResponseMajor
    ensures PhaseOf(ResHttpMinor) == ResponseMinor && PhaseOf(ResFirstStatusCode) == ResponseMinor
    ensures PhaseOf(ResStatusCode) == ResponseStatus && PhaseOf(ResStatus) == ResponseStatus
    ensures PhaseOf(ResLineAlmostDone) == ResponseStatus && PhaseOf(HeaderFieldStart) == Later
  {
  }

  /** In the target nothing of the message but its kind has been read. */
  lemma UrlPhase(s: State)
    requires InUrl(s) || s.ReqHttpStart?
    ensures PhaseOf(s) == RequestFirst
  {
  }

  lemma LineEndPhases()
    ensures PhaseOf(ReqLineAlmostDone) == RequestMinor && PhaseOf(HeaderFieldStart) == Later
  {
  }

  lemma RequestMajorPhases()
    ensures PhaseOf(ReqHttpStart) == RequestFirst && PhaseOf(ReqHttpH) == RequestFirst
    ensures PhaseOf(ReqHttpHT) == RequestFirst && PhaseOf(ReqHttpHTT) == RequestFirst
    ensures PhaseOf(ReqHttpHTTP) == RequestFirst && PhaseOf(ReqFirstHttpMajor) == RequestFirst
  {
  }

  lemma RequestMinorPhases()
    ensures PhaseOf(ReqHttpMajor) == RequestMajor && PhaseOf(ReqFirstHttpMinor) == RequestMajor
    ensures PhaseOf(ReqHttpMinor) == RequestMinor
  {
  }

  lemma NamePhases()
    ensures PhaseOf(HeaderFieldStart) == Later && PhaseOf(HeadersAlmostDone) == Later
    ensures PhaseOf(HeaderField) == InLine && PhaseOf(HeaderValueStart) == EndsLine && PhaseOf(HeaderAlmostDone) == EndsLine
  {
  }

  lemma ValuePhases()
    ensures PhaseOf(HeaderValue) == InLine && PhaseOf(HeaderValueStart) == EndsLine
    ensures PhaseOf(HeaderAlmostDone) == EndsLine && PhaseOf(HeaderFieldStart) == Later
  {
  }

  /** From the end of the headers to the end of the message the same fields matter. */
  lemma BodyPhase(s: State)
    requires InBody(s)
    ensures PhaseOf(s) == Later
  {
  }

  lemma StartPhases()
    ensures PhaseOf(StartReq) == RequestStart && PhaseOf(StartRes) == ResponseStart && PhaseOf(StartReqOrRes) == AnyStart
    ensures PhaseOf(ReqMethod) == RequestMethod && PhaseOf(ResOrRespH) == AnyFirst && PhaseOf(ResHT) == ResponseFirst
    ensures PhaseOf(ResH) == ResponseFirst && PhaseOf(Dead) == Over
  {
  }

  lemma MethodSame(q1: Parser, q2: Parser, ch: char)
    requires q1.state.ReqMethod? && Same(q1, q2)
    ensures SameOutcome(MethodByte(q1, ch), MethodByte(q2, ch))
  {
    hide MethodByte;
    MethodAgree(q1, q2, ch);
    MethodFrame(q1, ch);
    MethodFrame(q2, ch);
  }

  lemma AssignSame(q1: Parser, q2: Parser, ch: char)
    requires q1.kind.Request? && q2.kind.Request? && q1.upgrade == q2.upgrade
    ensures SameOutcome(AssignMethod(BeginMessage(q1), ch), AssignMethod(BeginMessage(q2), ch))
  {
    hide AssignMethod;
    var b1, b2 := BeginMessage(q1), BeginMessage(q2);
    AssignAgree(b1, b2, ch);
    AssignFrame(b1, ch);
    AssignFrame(b2, ch);
  }

  lemma RequestStartSame(q1: Parser, q2: Parser, ch: char)
    requires (q1.state.StartReq? || q1.state.ReqMethod?) && Same(q1, q2)
    ensures SameOutcome(StartByte(q1, ch), StartByte(q2, ch))
  {
    hide MethodByte, AssignMethod, PhaseOf;
    StartPhases();
    if q1.state.ReqMethod? { MethodSame(q1, q2, ch); } else { AssignSame(q1, q2, ch); }
  }

  lemma AnyStartSame(q1: Parser, q2: Parser, ch: char)
    requires q1.state.StartReqOrRes? && Same(q1, q2)
    ensures SameOutcome(StartByte(q1, ch), StartByte(q2, ch))
  {
    hide AssignMethod, PhaseOf;
    StartPhases();
    AssignSame(q1.(kind := Request), q2.(kind := Request), ch);
  }

  lemma BeganSame(q1: Parser, q2: Parser)
    requires q1.state.StartRes? && Same(q1, q2)
    ensures Same(BeginMessage(q1), BeginMessage(q2))
    ensures Same(BeginMessage(q1).(state := ResH), BeginMessage(q2).(state := ResH))
  {
    hide PhaseOf;
    StartPhases();
  }

  lemma ResponseStartSame(q1: Parser, q2: Parser, ch: char)
    requires q1.state.StartRes? && Same(q1, q2)
    ensures SameOutcome(StartByte(q1, ch), StartByte(q2, ch))
  {
    hide PhaseOf, SameLive, MethodByte, AssignMethod, BeginMessage;
    BeganSame(q1, q2);
  }

  lemma AnyFirstMoves(q1: Parser, q2: Parser)
    requires q1.state.ResOrRespH? && Same(q1, q2)
    ensures Same(q1.(kind := Response, state := ResHT), q2.(kind := Response, state := ResHT))
    ensures Same(q1.(kind := Request, meth := HEAD, index := 2, state := ReqMethod),
                 q2.(kind := Request, meth := HEAD, index := 2, state := ReqMethod))
  {
    hide PhaseOf;
    StartPhases();
  }

  lemma AnyFirstSame(q1: Parser, q2: Parser, ch: char)
    requires q1.state.ResOrRespH? && Same(q1, q2)
    ensures SameOutcome(StartByte(q1, ch), StartByte(q2, ch))
  {
    hide PhaseOf, SameLive, MethodByte, AssignMethod;
    AnyFirstMoves(q1, q2);
  }

  lemma StartSame(q1: Parser, q2: Parser, ch: char)
    requires InStart(q1.state) && Same(q1, q2)
    ensures SameOutcome(StartByte(q1, ch), StartByte(q2, ch))
  {
    hide StartByte, SameLive, PhaseOf, SameOutcome;
    match q1.state
    case StartReq | ReqMethod => RequestStartSame(q1, q2, ch);
    case StartReqOrRes => AnyStartSame(q1, q2, ch);
    case StartRes => ResponseStartSame(q1, q2, ch);
    case ResOrRespH => AnyFirstSame(q1, q2, ch);
  }

  lemma ResponseMajorSame(q1: Parser, q2: Parser, ch: char)
    requires Same(q1, q2)
    requires q1.state.ResH? || q1.state.ResHT? || q1.state.ResHTT? || q1.state.ResHTTP? || q1.state.ResFirstHttpMajor?
    ensures SameOutcome(StatusLineByte(q1, ch), StatusLineByte(q2, ch))
  {
    hide PhaseOf;
    StatusLinePhases();
  }

  lemma MajorMoves(q1: Parser, q2: Parser, n: nat)
    requires (q1.state.ResHttpMajor? || q1.state.ResFirstHttpMinor?) && Same(q1, q2)
    ensures q1.httpMajor == q2.httpMajor
    ensures Same(q1.(state := ResFirstHttpMinor), q2.(state := ResFirstHttpMinor))
    ensures Same(q1.(httpMajor := n), q2.(httpMajor := n))
    ensures Same(q1.(httpMinor := n, state := ResHttpMinor), q2.(httpMinor := n, state := ResHttpMinor))
  {
    hide PhaseOf;
    StatusLinePhases();
  }

  lemma ResponseMinorSame(q1: Parser, q2: Parser, ch: char)
    requires Same(q1, q2) && (q1.state.ResHttpMajor? || q1.state.ResFirstHttpMinor?)
    ensures SameOutcome(StatusLineByte(q1, ch), StatusLineByte(q2, ch))
  {
    hide PhaseOf, SameLive;
    MajorMoves(q1, q2, 0);
    if IsDigit(ch) {
      MajorMoves(q1, q2, q1.httpMajor * 10 + DigitValue(ch));
      MajorMoves(q1, q2, DigitValue(ch));
    }
  }

  lemma MinorMoves(q1: Parser, q2: Parser, n: nat)
    requires (q1.state.ResHttpMinor? || q1.state.ResFirstStatusCode?) && Same(q1, q2)
    ensures q1.httpMinor == q2.httpMinor
    ensures Same(q1.(state := ResFirstStatusCode), q2.(state := ResFirstStatusCode))
    ensures Same(q1.(httpMinor := n), q2.(httpMinor := n))
    ensures Same(q1.(statusCode := n, state := ResStatusCode), q2.(statusCode := n, state := ResStatusCode))
  {
    hide PhaseOf;
    StatusLinePhases();
  }

  lemma ResponseStatusSame(q1: Parser, q2: Parser, ch: char)
    requires Same(q1, q2) && (q1.state.ResHttpMinor? || q1.state.ResFirstStatusCode?)
    ensures SameOutcome(StatusLineByte(q1, ch), StatusLineByte(q2, ch))
  {
    hide PhaseOf, SameLive;
    MinorMoves(q1, q2, 0);
    if IsDigit(ch) {
      MinorMoves(q1, q2, q1.httpMinor * 10 + DigitValue(ch));
      MinorMoves(q1, q2, DigitValue(ch));
    }
  }

  /** A move to a state that reads no more of the message than the one before. */
  lemma StateSame(q1: Parser, q2: Parser, s: State)
    requires Same(q1, q2) && PhaseOf(q1.state) == ResponseStatus
    requires PhaseOf(s) == ResponseStatus || PhaseOf(s) == Later
    ensures Same(q1.(state := s), q2.(state := s))
  {
    hide PhaseOf;
  }

  lemma SameStatus(q1: Parser, q2: Parser)
    requires Same(q1, q2) && PhaseOf(q1.state) == ResponseStatus
    ensures q1.statusCode == q2.statusCode
    ensures forall n: nat :: Same(q1.(statusCode := n), q2.(statusCode := n))
  {
    hide PhaseOf;
  }

  lemma StatusCodeSame(q1: Parser, q2: Parser, ch: char)
    requires Same(q1, q2) && q1.state.ResStatusCode?
    ensures SameOutcome(StatusLineByte(q1, ch), StatusLineByte(q2, ch))
  {
    hide PhaseOf, SameLive;
    StatusLinePhases();
    SameStatus(q1, q2);
    StateSame(q1, q2, ResStatus);
    StateSame(q1, q2, ResLineAlmostDone);
    StateSame(q1, q2, HeaderFieldStart);
  }

  lemma ReasonSame(q1: Parser, q2: Parser, ch: char)
    requires Same(q1, q2) && (q1.state.ResStatus? || q1.state.ResLineAlmostDone?)
    ensures SameOutcome(StatusLineByte(q1, ch), StatusLineByte(q2, ch))
  {
    hide PhaseOf, SameLive;
    StatusLinePhases();
    StateSame(q1, q2, ResLineAlmostDone);
    StateSame(q1, q2, HeaderFieldStart);
  }

  lemma StatusLineSame(q1: Parser, q2: Parser, ch: char)
    requires InStatusLine(q1.state) && Same(q1, q2)
    ensures SameOutcome(StatusLineByte(q1, ch), StatusLineByte(q2, ch))
  {
    hide StatusLineByte, SameLive, PhaseOf, SameOutcome;
    match q1.state
    case ResHttpMajor | ResFirstHttpMinor => ResponseMinorSame(q1, q2, ch);
    case ResHttpMinor | ResFirstStatusCode => ResponseStatusSame(q1, q2, ch);
    case ResStatusCode => StatusCodeSame(q1, q2, ch);
    case ResStatus | ResLineAlmostDone => ReasonSame(q1, q2, ch);
    case _ => ResponseMajorSame(q1, q2, ch);
  }

  lemma UrlSame(q1: Parser, q2: Parser, ch: char)
    requires InUrl(q1.state) && Same(q1, q2)
    ensures SameOutcome(UrlByte(q1, ch), UrlByte(q2, ch))
  {
    hide UrlByte, PhaseOf, InUrl;
    UrlLocal(q1, q1, ch);
    UrlLocal(q2, q1, ch);
    UrlFrame(q1, ch);
    UrlPhase(q1.state);
    LineEndPhases();
    var o := UrlByte(q1, ch);
    if o.Next? && !o.q.state.ReqLineAlmostDone? && !o.q.state.HeaderFieldStart? { UrlPhase(o.q.state); }
  }

  lemma RequestMajorSame(q1: Parser, q2: Parser, ch: char)
    requires InRequestVersion(q1.state) && Same(q1, q2)
    requires q1.state.ReqHttpStart? || q1.state.ReqHttpH? || q1.state.ReqHttpHT? || q1.state.ReqHttpHTT?
             || q1.state.ReqHttpHTTP? || q1.state.ReqFirstHttpMajor?
    ensures SameOutcome(RequestVersionByte(q1, ch), RequestVersionByte(q2, ch))
  {
    hide PhaseOf;
    RequestMajorPhases();
    RequestMinorPhases();
  }

  lemma RequestMinorSame(q1: Parser, q2: Parser, ch: char)
    requires Same(q1, q2) && (q1.state.ReqHttpMajor? || q1.state.ReqFirstHttpMinor?)
    ensures SameOutcome(RequestVersionByte(q1, ch), RequestVersionByte(q2, ch))
  {
    hide PhaseOf;
    RequestMinorPhases();
  }

  lemma RequestLineEndSame(q1: Parser, q2: Parser, ch: char)
    requires Same(q1, q2) && (q1.state.ReqHttpMinor? || q1.state.ReqLineAlmostDone?)
    ensures SameOutcome(RequestVersionByte(q1, ch), RequestVersionByte(q2, ch))
  {
    hide PhaseOf;
    RequestMinorPhases();
    LineEndPhases();
  }

  lemma RequestVersionSame(q1: Parser, q2: Parser, ch: char)
    requires InRequestVersion(q1.state) && Same(q1, q2)
    ensures SameOutcome(RequestVersionByte(q1, ch), RequestVersionByte(q2, ch))
  {
    hide RequestVersionByte, SameLive, PhaseOf, SameOutcome;
    match q1.state
    case ReqHttpMajor | ReqFirstHttpMinor => RequestMinorSame(q1, q2, ch);
    case ReqHttpMinor | ReqLineAlmostDone => RequestLineEndSame(q1, q2, ch);
    case _ => RequestMajorSame(q1, q2, ch);
  }

  /** What is decided about the message depends only on live fields. */
  lemma MessageSame(q1: Parser, q2: Parser)
    requires Same(q1, q2) && PhaseOf(q1.state) == Later
    ensures SummaryOf(q1) == SummaryOf(q2)
    ensures NewMessage(q1) == NewMessage(q2)
    ensures Same(q1.(state := NewMessage(q1)), q2.(state := NewMessage(q2)))
  {
    hide PhaseOf;
    StartPhases();
  }

  lemma EndOfHeadersSame(q1: Parser, q2: Parser, ch: char)
    requires q1.state.HeadersAlmostDone? && Same(q1, q2)
    ensures SameOutcome(EndOfHeaders(q1, ch), EndOfHeaders(q2, ch))
  {
    hide SummaryOf, NewMessage, PhaseOf;
    NamePhases();
    BodyPhase(ChunkSizeStart);
    BodyPhase(BodyIdentity);
    NewMessageState(q1);
    MessageSame(q1, q2);
    var p1 := q1.(nread := 0, upgrade := q1.upgrade || q1.flags.upgrade || q1.meth == CONNECT);
    var p2 := q2.(nread := 0, upgrade := q2.upgrade || q2.flags.upgrade || q2.meth == CONNECT);
    MessageSame(p1, p2);
  }

  lemma LineStartSame(q1: Parser, q2: Parser, ch: char)
    requires q1.state.HeaderFieldStart? && Same(q1, q2)
    ensures SameOutcome(HeaderNameByte(q1, ch), HeaderNameByte(q2, ch))
  {
    hide EndOfHeaders, Token, PhaseOf;
    NamePhases();
    EndOfHeadersSame(q1.(state := HeadersAlmostDone), q2.(state := HeadersAlmostDone), ch);
  }

  lemma NameSame(q1: Parser, q2: Parser, ch: char)
    requires q1.state.HeaderField? && Same(q1, q2) && Inv(q1) && Inv(q2)
    ensures SameOutcome(NameByte(q1, ch, Token(ch)), NameByte(q2, ch, Token(ch)))
  {
    hide NameByte, Token, Inv;
    HeaderPhases(q1);
    HeaderPhases(q2);
    NameAgree(q1, q2, ch, Token(ch));
    NameFrame(q1, ch, Token(ch));
    NameFrame(q2, ch, Token(ch));
  }

  /** The state after the byte that ends a name. */
  function AfterName(ch: char): State {
    if ch == ':' then HeaderValueStart else if ch == CR then HeaderAlmostDone else HeaderFieldStart
  }

  lemma NameEnds(q: Parser, ch: char)
    requires q.state.HeaderField? && !IsToken(ch)
    ensures HeaderNameByte(q, ch) ==
            if ch == ':' || ch == CR || ch == LF then Next(q.(state := AfterName(ch)), [Flush(Field)]) else Error
  {
    hide NameByte, EndOfHeaders, Token;
  }

  lemma NameEndsSame(q1: Parser, q2: Parser, ch: char)
    requires q1.state.HeaderField? && Same(q1, q2) && !IsToken(ch)
    ensures SameOutcome(HeaderNameByte(q1, ch), HeaderNameByte(q2, ch))
  {
    hide HeaderNameByte, IsToken, PhaseOf;
    NamePhases();
    NameEnds(q1, ch);
    NameEnds(q2, ch);
  }

  lemma TokenGoesOn(q: Parser, ch: char)
    requires q.state.HeaderField? && IsToken(ch)
    ensures HeaderNameByte(q, ch) == NameByte(q, ch, Token(ch))
  {
    hide NameByte, EndOfHeaders, Token;
  }

  lemma HeaderNameSame(q1: Parser, q2: Parser, ch: char)
    requires InHeaderName(q1.state) && Same(q1, q2) && Inv(q1) && Inv(q2)
    ensures SameOutcome(HeaderNameByte(q1, ch), HeaderNameByte(q2, ch))
  {
    hide NameByte, HeaderNameByte, Token, Inv, PhaseOf, SameLive, SameOutcome;
    if q1.state.HeaderFieldStart? {
      LineStartSame(q1, q2, ch);
    } else if IsToken(ch) {
      TokenGoesOn(q1, ch);
      TokenGoesOn(q2, ch);
      NameSame(q1, q2, ch);
    } else {
      NameEndsSame(q1, q2, ch);
    }
  }

  lemma EndOfValueSame(q1: Parser, q2: Parser, flushed: seq<Signal>)
    requires (q1.state.HeaderValue? || q1.state.HeaderAlmostDone?) && Same(q1, q2)
    ensures SameOutcome(EndOfValue(q1, flushed), EndOfValue(q2, flushed))
  {
    hide PhaseOf;
    ValuePhases();
  }

  lemma FirstValueSame(q1: Parser, q2: Parser, ch: char)
    requires q1.state.HeaderValueStart? && Same(q1, q2)
    ensures SameOutcome(FirstValueByte(q1, ch), FirstValueByte(q2, ch))
  {
    hide FirstValueByte, PhaseOf;
    ValuePhases();
    FirstValueAgree(q1, q2, ch);
    FirstValueFrame(q1, ch);
    FirstValueFrame(q2, ch);
  }

  lemma ValueSame(q1: Parser, q2: Parser, ch: char)
    requires q1.state.HeaderValue? && Same(q1, q2) && Inv(q1) && Inv(q2)
    ensures SameOutcome(ValueByte(q1, ch), ValueByte(q2, ch))
  {
    hide ValueByte, Inv, PhaseOf;
    ValuePhases();
    HeaderPhases(q1);
    HeaderPhases(q2);
    ValueAgree(q1, q2, ch);
    ValueFrame(q1, ch);
    ValueFrame(q2, ch);
  }

  lemma NoValueSame(q1: Parser, q2: Parser, ch: char)
    requires q1.state.HeaderValueStart? && Same(q1, q2) && (ch == ' ' || ch == CR || ch == LF)
    ensures SameOutcome(HeaderValueByte(q1, ch), HeaderValueByte(q2, ch))
  {
    hide FirstValueByte, PhaseOf;
    ValuePhases();
  }

  lemma FirstOfValue(q: Parser, ch: char)
    requires q.state.HeaderValueStart? && ch != ' ' && ch != CR && ch != LF
    ensures HeaderValueByte(q, ch) == FirstValueByte(q, ch)
  {
    hide FirstValueByte;
  }

  lemma ValueStartSame(q1: Parser, q2: Parser, ch: char)
    requires q1.state.HeaderValueStart? && Same(q1, q2)
    ensures SameOutcome(HeaderValueByte(q1, ch), HeaderValueByte(q2, ch))
  {
    hide FirstValueByte, HeaderValueByte, PhaseOf, SameLive, SameOutcome;
    if ch == ' ' || ch == CR || ch == LF {
      NoValueSame(q1, q2, ch);
    } else {
      FirstOfValue(q1, ch);
      FirstOfValue(q2, ch);
      FirstValueSame(q1, q2, ch);
    }
  }

  lemma InValueSame(q1: Parser, q2: Parser, ch: char)
    requires q1.state.HeaderValue? && Same(q1, q2) && Inv(q1) && Inv(q2)
    ensures SameOutcome(HeaderValueByte(q1, ch), HeaderValueByte(q2, ch))
  {
    hide ValueByte, EndOfValue, Inv, PhaseOf;
    ValuePhases();
    ValueSame(q1, q2, ch);
    EndOfValueSame(q1, q2, [Flush(Value)]);
  }

  lemma HeaderValueSame(q1: Parser, q2: Parser, ch: char)
    requires InHeaderValue(q1.state) && Same(q1, q2) && Inv(q1) && Inv(q2)
    ensures SameOutcome(HeaderValueByte(q1, ch), HeaderValueByte(q2, ch))
  {
    match q1.state {
      case HeaderValueStart => hide *; ValueStartSame(q1, q2, ch);
      case HeaderValue => hide *; InValueSame(q1, q2, ch);
      case HeaderAlmostDone => hide FirstValueByte, ValueByte, EndOfValue, PhaseOf; EndOfValueSame(q1, q2, []);
    }
  }

  lemma EofSame(q1: Parser, q2: Parser, ch: char)
    requires q1.state.BodyIdentityEof? && Same(q1, q2)
    ensures SameOutcome(BodyStep(q1, ch), BodyStep(q2, ch))
  {
    hide PhaseOf;
  }

  lemma IdentitySame(q1: Parser, q2: Parser, ch: char)
    requires q1.state.BodyIdentity? && Same(q1, q2)
    ensures SameOutcome(BodyStep(q1, ch), BodyStep(q2, ch))
  {
    hide NewMessage, PhaseOf, LiveIn;
    BodyPhase(BodyIdentity);
    LaterLength(q1, q2);
    if q1.contentLength > 0 {
      var r1, r2 := q1.(contentLength := q1.contentLength - 1), q2.(contentLength := q1.contentLength - 1);
      ShorterSame(q1, q2, q1.contentLength - 1);
      MessageSame(r1, r2);
    }
  }

  lemma LaterLength(q1: Parser, q2: Parser)
    requires Same(q1, q2) && PhaseOf(q1.state) == Later
    ensures q1.contentLength == q2.contentLength
  {
    hide PhaseOf;
  }

  lemma ShorterSame(q1: Parser, q2: Parser, n: nat)
    requires Same(q1, q2)
    ensures Same(q1.(contentLength := n), q2.(contentLength := n))
  {
    hide PhaseOf;
  }

  lemma FirstDigitSame(q1: Parser, q2: Parser, ch: char)
    requires q1.state.ChunkSizeStart? && Same(q1, q2) && q1.nread == q2.nread
    ensures SameOutcome(ChunkByte(q1, ch), ChunkByte(q2, ch))
  {
    hide PhaseOf, Unhex, Wrap;
    BodyPhase(ChunkSizeStart);
    BodyPhase(ChunkSize);
  }

  function NextSize(n: nat, ch: char): nat {
    if Unhex(ch) < 0 then 0 else Wrap(n * 16 + Unhex(ch))
  }

  lemma SizeByteIs(q: Parser, ch: char)
    requires q.state.ChunkSize?
    ensures ChunkByte(q, ch) ==
            if ch == CR then Goto(q, ChunkSizeAlmostDone)
            else if Unhex(ch) != -1 then Next(q.(contentLength := NextSize(q.contentLength, ch)), [])
            else if ch == ';' || ch == ' ' then Goto(q, ChunkParameters)
            else Error
  {
    hide Unhex, Wrap;
  }

  lemma NextDigitSame(q1: Parser, q2: Parser, ch: char)
    requires q1.state.ChunkSize? && Same(q1, q2)
    ensures SameOutcome(ChunkByte(q1, ch), ChunkByte(q2, ch))
  {
    hide PhaseOf, Unhex, NextSize, ChunkByte;
    BodyPhase(ChunkSize);
    BodyPhase(ChunkSizeAlmostDone);
    BodyPhase(ChunkParameters);
    SizeByteIs(q1, ch);
    SizeByteIs(q2, ch);
  }

  lemma ChunkSizeEndSame(q1: Parser, q2: Parser, ch: char)
    requires (q1.state.ChunkParameters? || q1.state.ChunkSizeAlmostDone?) && Same(q1, q2)
    ensures SameOutcome(ChunkByte(q1, ch), ChunkByte(q2, ch))
  {
    hide PhaseOf, Unhex, Wrap;
    BodyPhase(ChunkParameters);
    BodyPhase(ChunkSizeAlmostDone);
    BodyPhase(ChunkData);
    LineEndPhases();
  }

  lemma ChunkDataSame(q1: Parser, q2: Parser, ch: char)
    requires q1.state.ChunkData? || q1.state.ChunkDataAlmostDone? || q1.state.ChunkDataDone?
    requires Same(q1, q2)
    ensures SameOutcome(ChunkByte(q1, ch), ChunkByte(q2, ch))
  {
    hide PhaseOf;
    BodyPhase(ChunkData);
    BodyPhase(ChunkDataAlmostDone);
    BodyPhase(ChunkDataDone);
    BodyPhase(ChunkSizeStart);
  }

  lemma BodySame(q1: Parser, q2: Parser, ch: char)
    requires InBody(q1.state) && Same(q1, q2)
    requires q1.state.ChunkSizeStart? ==> q1.nread == q2.nread
    ensures SameOutcome(BodyStep(q1, ch), BodyStep(q2, ch))
  {
    hide ChunkByte, SameOutcome, SameLive, PhaseOf;
    BodyPhase(q1.state);
    LaterFlags(q1, q2);
    match q1.state
    case BodyIdentity => IdentitySame(q1, q2, ch);
    case BodyIdentityEof => EofSame(q1, q2, ch);
    case ChunkData | ChunkDataAlmostDone | ChunkDataDone => ChunkDataSame(q1, q2, ch); BothAbort();
    case ChunkSizeStart => FirstDigitSame(q1, q2, ch); BothAbort();
    case ChunkSize => NextDigitSame(q1, q2, ch); BothAbort();
    case _ => ChunkSizeEndSame(q1, q2, ch); BothAbort();
  }

  lemma LaterFlags(q1: Parser, q2: Parser)
    requires Same(q1, q2) && PhaseOf(q1.state) == Later
    ensures q1.flags == q2.flags
  {
    hide PhaseOf;
  }

  lemma BothAbort()
    ensures SameOutcome(Aborted, Aborted)
  {
  }

  // ----- Whole inputs -----

  lemma CountSame(q1: Parser, q2: Parser)
    requires Same(q1, q2)
    ensures Same(Count(q1), Count(q2))
  {
    hide PhaseOf;
  }

  lemma StepSame(q1: Parser, q2: Parser, ch: char)
    requires Same(q1, q2) && Inv(q1) && Inv(q2)
    ensures SameOutcome(FreeStep(q1, ch), FreeStep(q2, ch))
  {
    hide StartByte, StatusLineByte, UrlByte, RequestVersionByte, HeaderNameByte, HeaderValueByte, BodyStep, EndOfHeaders,
         Inv, SameLive, PhaseOf, SameOutcome;
    var c1, c2 := Count(q1), Count(q2);
    CountSame(q1, q2);
    BothError();
    if InBody(q1.state) {
      InChunks(q1);
      InChunks(q2);
      BodySame(c1, c2, ch);
    } else {
      CountSafe(q1);
      CountSafe(q2);
      if InStart(q1.state) { StartSame(c1, c2, ch); }
      else if InStatusLine(q1.state) { StatusLineSame(c1, c2, ch); }
      else if InUrl(q1.state) { UrlSame(c1, c2, ch); }
      else if InRequestVersion(q1.state) { RequestVersionSame(c1, c2, ch); }
      else if InHeaderName(q1.state) { HeaderNameSame(c1, c2, ch); }
      else if InHeaderValue(q1.state) { HeaderValueSame(c1, c2, ch); }
      else if q1.state == HeadersAlmostDone { EndOfHeadersSame(c1, c2, ch); }
    }
  }

  lemma BothError()
    ensures SameOutcome(Error, Error)
  {
  }

  /** The same calls of the application's functions on both runs, and the same end. */
  predicate SameRun(r1: Run, r2: Run) {
    match r1
    case Consumed(q1, es1) => r2.Consumed? && es1 == r2.events && Same(q1, r2.q)
    case Stopped(n, es1, reason) => r2.Stopped? && n == r2.at && es1 == r2.events && reason == r2.reason
  }

  /** Whatever the dead fields hold, the events of every input are the same. */
  lemma {:induction false} RunSame(q1: Parser, q2: Parser, s: string)
    requires Same(q1, q2) && Inv(q1) && Inv(q2)
    ensures SameRun(FreeFeed(q1, s), FreeFeed(q2, s))
    decreases |s|
  {
    hide FreeStep, Inv, Same;
    if s != [] {
      StepSame(q1, q2, s[0]);
      FreeStepSafe(q1, s[0]);
      FreeStepSafe(q2, s[0]);
      var o1, o2 := FreeStep(q1, s[0]), FreeStep(q2, s[0]);
      if o1.Next? {
        SameStates(o1.q, o2.q);
        RunSame(o1.q, o2.q, s[1..]);
      }
    }
  }

  lemma SameStates(q1: Parser, q2: Parser)
    requires Same(q1, q2)
    ensures q1.state == q2.state
  {
  }

  // ----- The limit -----

  lemma CountedSame(q1: Parser, q2: Parser, n1: nat, n2: nat, ch: char)
    requires Same(q1, q2) && n2 <= n1
    ensures Counted(q2, n2, ch) <= Counted(q1, n1, ch)
    ensures n1 == n2 ==> Counted(q2, n2, ch) == Counted(q1, n1, ch)
  {
    hide PhaseOf;
    NamePhases();
  }

  /** A smaller counter is within the limit wherever a larger one is. */
  lemma {:induction false} WithinSame(q1: Parser, q2: Parser, n1: nat, n2: nat, s: string)
    requires Same(q1, q2) && Inv(q1) && Inv(q2) && n2 <= n1
    ensures WithinLimit(q1, n1, s) ==> WithinLimit(q2, n2, s)
    decreases |s|
  {
    hide FreeStep, Inv, Same, Counted;
    SameStates(q1, q2);
    if s != [] {
      StepSame(q1, q2, s[0]);
      FreeStepSafe(q1, s[0]);
      FreeStepSafe(q2, s[0]);
      CountedSame(q1, q2, n1, n2, s[0]);
      var o1, o2 := FreeStep(q1, s[0]), FreeStep(q2, s[0]);
      if o1.Next? { WithinSame(o1.q, o2.q, Counted(q1, n1, s[0]), Counted(q2, n2, s[0]), s[1..]); }
    }
  }

  // ----- A parser that was just initialised -----

  lemma InitSame(q1: Parser, q2: Parser, t: ParserType)
    ensures Same(Init(q1, t), Init(q2, t))
  {
    hide PhaseOf;
    StartPhases();
  }

  lemma LimitedStepSame(q1: Parser, q2: Parser, ch: char)
    requires Same(q1, q2) && Inv(q1) && Inv(q2) && q1.nread == q2.nread
    ensures SameOutcome(Step(q1, ch), Step(q2, ch))
    ensures var o1, o2 := Step(q1, ch), Step(q2, ch);
            o1.Next? ==> Inv(o1.q) && Inv(o2.q) && o1.q.nread == o2.q.nread && o1.q.state == o2.q.state
  {
    hide FreeStep, Inv, SameLive, Counted;
    StepSame(q1, q2, ch);
    InvCountable(q1);
    InvCountable(q2);
    CountedStep(q1, q1.nread, ch);
    CountedStep(q2, q2.nread, ch);
    CountedSame(q1, q2, q1.nread, q2.nread, ch);
  }

  /** With the same header counter the runs are the same, to the byte they stop at. */
  lemma {:induction false} FeedSame(q1: Parser, q2: Parser, s: string)
    requires Same(q1, q2) && Inv(q1) && Inv(q2) && q1.nread == q2.nread
    ensures SameRun(Feed(q1, s), Feed(q2, s))
    decreases |s|
  {
    hide Step, Inv, Same;
    if s != [] {
      LimitedStepSame(q1, q2, s[0]);
      var o1, o2 := Step(q1, s[0]), Step(q2, s[0]);
      if o1.Next? { FeedSame(o1.q, o2.q, s[1..]); }
    }
  }

  /** After `http_parser_init` nothing of the past matters: two parsers of one type do the
      same on every input, whatever they were used for before. */
  lemma FreshStart(q1: Parser, q2: Parser, t: ParserType, s: string)
    requires q1.index < 256 && q2.index < 256
    ensures SameRun(Feed(Init(q1, t), s), Feed(Init(q2, t), s))
  {
    hide Feed, Inv, Init, Same;
    InitSafe(q1, t);
    InitSafe(q2, t);
    InitSame(q1, q2, t);
    InitCounts(q1, q2, t);
    FeedSame(Init(q1, t), Init(q2, t), s);
  }

  lemma InitCounts(q1: Parser, q2: Parser, t: ParserType)
    ensures Init(q1, t).nread == 0 == Init(q2, t).nread
  {
  }

  // ----- A parser that just finished a message -----

  /** No other protocol was asked for, so the stale method of a response is not `CONNECT`. */
  predicate Plain(q: Parser) {
    !q.upgrade && (q.kind.Request? || !q.meth.CONNECT?) && Same(q, q)
  }

  lemma StartPlain(q: Parser, ch: char)
    requires InStart(q.state) && Plain(q)
    ensures var o := StartByte(q, ch);
            o.Next? ==> !o.q.upgrade && (o.q.kind.Request? || !o.q.meth.CONNECT?)
  {
    hide MethodByte, AssignMethod, PhaseOf;
    StartPhases();
    MethodFrame(q, ch);
    AssignFrame(BeginMessage(q), ch);
    AssignFrame(BeginMessage(q).(kind := Request), ch);
  }

  lemma EndPlain(q: Parser, ch: char)
    requires q.state.HeadersAlmostDone? && Plain(q)
    ensures var o := EndOfHeaders(q, ch);
            o.Next? ==> !o.q.upgrade && o.q.kind == q.kind && o.q.meth == q.meth
  {
    hide Same;
  }

  predicate KeepsPlain(q: Parser, o: Outcome) {
    o.Next? ==> o.q.upgrade == q.upgrade && o.q.kind == q.kind && o.q.meth == q.meth
  }

  lemma HeaderNamePlain(q: Parser, ch: char)
    requires InHeaderName(q.state) && Plain(q) && Inv(q)
    ensures KeepsPlain(q, HeaderNameByte(q, ch))
  {
    hide NameByte, Token, EndOfHeaders, Inv, Same;
    if q.state.HeaderFieldStart? {
      AlmostPlain(q);
      EndPlain(q.(state := HeadersAlmostDone), ch);
    } else {
      HeaderPhases(q);
      NameFrame(q, ch, Token(ch));
    }
  }

  lemma AlmostPlain(q: Parser)
    requires q.state.HeaderFieldStart? && Plain(q)
    ensures Plain(q.(state := HeadersAlmostDone))
  {
    hide PhaseOf;
    NamePhases();
  }

  lemma HeaderValuePlain(q: Parser, ch: char)
    requires InHeaderValue(q.state)
    ensures KeepsPlain(q, HeaderValueByte(q, ch))
  {
    hide FirstValueByte, ValueByte, EndOfValue;
    FirstValueFrame(q, ch);
    ValueRest(q, ch);
    EndOfValueFrame(q, []);
    EndOfValueFrame(q, [Flush(Value)]);
  }

  lemma ValueRest(q: Parser, ch: char)
    ensures KeepsPlain(q, ValueByte(q, ch))
  {
    hide Lower;
  }

  lemma BodyPlain(q: Parser, ch: char)
    requires InBody(q.state)
    ensures KeepsPlain(q, BodyStep(q, ch))
  {
    hide Unhex, Wrap, NewMessage;
  }

  lemma StepPlain(q: Parser, ch: char)
    requires Plain(q) && Inv(q)
    ensures var o := FreeStep(q, ch); o.Next? ==> Plain(o.q)
  {
    hide StartByte, StatusLineByte, UrlByte, RequestVersionByte, HeaderNameByte, HeaderValueByte, BodyStep, EndOfHeaders,
         Inv, Same;
    StepSame(q, q, ch);
    CountSame(q, q);
    var c := Count(q);
    if InStart(q.state) { StartPlain(c, ch); }
    else if InStatusLine(q.state) { StatusLineFrame(c, ch); }
    else if InUrl(q.state) { UrlFrame(c, ch); }
    else if InRequestVersion(q.state) { RequestVersionFrame(c, ch); }
    else if InHeaderName(q.state) { CountSafe(q); HeaderNamePlain(c, ch); }
    else if InHeaderValue(q.state) { HeaderValuePlain(c, ch); }
    else if InBody(q.state) { BodyPlain(c, ch); }
    else if q.state == HeadersAlmostDone { EndPlain(c, ch); }
  }

  lemma {:induction false} RunPlain(q: Parser, s: string)
    requires Plain(q) && Inv(q)
    ensures var r := FreeFeed(q, s); r.Consumed? ==> Plain(r.q) && Inv(r.q)
    decreases |s|
  {
    hide FreeStep, Inv, Plain;
    if s != [] {
      StepPlain(q, s[0]);
      FreeStepSafe(q, s[0]);
      var o := FreeStep(q, s[0]);
      if o.Next? { RunPlain(o.q, s[1..]); }
    }
  }

  /** Between messages the parser is as good as new. */
  lemma AsNew(q: Parser, p: Parser)
    requires Plain(q) && (q.state.StartReq? || q.state.StartRes?)
    ensures Same(q, Init(p, q.kind)) && Same(Init(p, q.kind), q)
  {
    hide PhaseOf;
    StartPhases();
  }

  lemma InitPlain(q: Parser, t: ParserType)
    ensures Plain(Init(q, t))
  {
    hide PhaseOf;
    StartPhases();
  }

  /** Within the limit the two loops do the same, stops included. */
  lemma {:induction false} WithinFeeds(q: Parser, s: string)
    requires Inv(q) && WithinLimit(q, q.nread, s)
    ensures Feed(q, s) == FreeFeed(q, s)
    decreases |s|
  {
    hide FreeStep, Inv, Resets;
    if s != [] {
      InvCountable(q);
      CountedStep(q, q.nread, s[0]);
      var o := FreeStep(q, s[0]);
      if o.Next? { WithinFeeds(o.q, s[1..]); }
    }
  }

  /** Pipelining: after a message on a connection that is kept alive, the next bytes are
      parsed as by a new parser, stops included.  The events of both are those of the first, then those of
      the second; and both are consumed exactly when the new parser consumes the second and
      the header counter, which goes on counting, stays within its limit. */
  lemma Pipelined(q0: Parser, p: Parser, t: ParserType, a: string, b: string)
    requires q0.index < 256 && p.index < 256
    requires var r := Feed(Init(q0, t), a); r.Consumed? && (r.q.state.StartReq? || r.q.state.StartRes?)
    ensures var r, both := Feed(Init(q0, t), a), Feed(Init(q0, t), a + b);
            var next := Feed(Init(p, r.q.kind), b);
            && (both.Consumed? <==> next.Consumed? && WithinLimit(r.q, r.q.nread, b))
            && (both.Consumed? ==> both.events == r.events + next.events && Same(both.q, next.q))
    ensures var r := Feed(Init(q0, t), a);
            WithinLimit(r.q, r.q.nread, b) ==> SameRun(Feed(r.q, b), Feed(Init(p, r.q.kind), b))
  {
    hide Feed, FreeFeed, Inv, Init, Same, Plain, WithinLimit;
    var q := Init(q0, t);
    InitSafe(q0, t);
    InitPlain(q0, t);
    FeedAppend(q, a, b);
    LimitExact(q, a);
    RunPlain(q, a);
    var r := Feed(q, a);
    var n := Init(p, r.q.kind);
    InitSafe(p, r.q.kind);
    PlainSame(r.q);
    AsNew(r.q, p);
    RunSame(r.q, n, b);
    LimitExact(r.q, b);
    LimitExact(n, b);
    InitCounts(p, p, r.q.kind);
    WithinSame(r.q, n, r.q.nread, 0, b);
    if WithinLimit(r.q, r.q.nread, b) {
      WithinFeeds(r.q, b);
      WithinFeeds(n, b);
    }
  }

  lemma PlainSame(q: Parser)
    requires Plain(q)
    ensures Same(q, q)
  {
  }

  // ----- Empty lines before a request -----

  /** Empty lines before a request are not seen by the application. */
  lemma BlankLines(q: Parser, blank: string, s: string)
    requires q.state.StartReq? && AllBlank(blank) && Inv(q)
    ensures var r, r' := FreeFeed(q, s), FreeFeed(q, blank + s);
            r'.events == r.events && (r'.Consumed? <==> r.Consumed?)
  {
    hide Inv, FreeFeed;
    BlankRun(q, blank);
    FreeFeedAppend(q, blank, s);
    var n := q.nread + |blank|;
    StillCounts(q, n);
    FreeFeedNread(q, n, s);
    var es := FreeFeed(q.(nread := n), s).events;
    assert [] + es == es;
  }

  lemma StillCounts(q: Parser, n: nat)
    requires q.state.StartReq?
    ensures Countable(q, n)
  {
  }
}
