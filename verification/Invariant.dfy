/** The inductive invariant of the parser.  It rules out every C assertion, keeps
    every stored field inside its C width and makes the 8-bit `index` exact. */
module Invariant {
  import opened Syntax
  import opened Machine
  import opened Messages
  import opened Frames

  /** Header recogniser: each phase only meets its own header states. */
  predicate HeaderInv(q: Parser) {
    match q.state
    case HeaderField => NamePhase(q.headerState) && NameIndex(q.headerState, q.index)
    case HeaderValueStart => NamePhase(q.headerState)
    case HeaderValue => ValuePhase(q.headerState) && ValueIndex(q.headerState, q.index)
    case _ => true
  }

  predicate Framed(q: Parser) {
    q.contentLength < SIZE_MODULUS && (q.flags.trailing ==> q.flags.chunked)
  }

  /** Body framing.  Between messages the flags and the length are leftovers. */
  predicate BodyInv(q: Parser) {
    match q.state
    case Dead | StartReqOrRes | StartReq | StartRes => true
    case ChunkSizeStart | ChunkDataAlmostDone | ChunkDataDone => Framed(q) && q.flags.chunked && q.nread == 0
    case ChunkSize | ChunkParameters | ChunkSizeAlmostDone => Framed(q) && q.flags.chunked
    case ChunkData => Framed(q) && q.flags.chunked && q.nread == 0 && q.contentLength > 0
    case BodyIdentity => Framed(q) && q.nread == 0 && q.contentLength > 0
    case BodyIdentityEof => false
    case _ => Framed(q)
  }

  /** Numbers: the 16-bit version and status fields are at most 999 while they grow,
      and the stored `index` has 8 bits. */
  predicate NumberInv(q: Parser) {
    && q.index < 256
    && match q.state
       case StartReqOrRes | ResOrRespH | Dead => true
       case ResHttpMajor | ReqHttpMajor => !q.kind.Both? && q.httpMajor <= 999
       case ResHttpMinor | ReqHttpMinor => !q.kind.Both? && q.httpMinor <= 999
       case ResStatusCode => !q.kind.Both? && q.statusCode <= 999
       case ReqMethod => !q.kind.Both? && 1 <= q.index <= 12
       case _ => !q.kind.Both?
  }

  predicate Inv(q: Parser) { HeaderInv(q) && BodyInv(q) && NumberInv(q) }

  /** A byte in state `q` fires no assertion and keeps the invariant. */
  predicate Safe(o: Outcome) {
    && !o.Aborted?
    && (o.Next? ==> Inv(o.q))
  }

  // ----- Each group fires no assertion and keeps the invariant -----

  lemma HeaderPhases(q: Parser)
    requires Inv(q)
    ensures q.index < 256
    ensures q.state.HeaderField? ==> NamePhase(q.headerState) && NameIndex(q.headerState, q.index)
    ensures q.state.HeaderValue? ==> ValuePhase(q.headerState) && ValueIndex(q.headerState, q.index)
  {
  }

  lemma InChunks(q: Parser)
    requires Inv(q)
    ensures InBody(q.state) ==> !q.state.BodyIdentityEof?
    ensures InBody(q.state) && !q.state.BodyIdentity? ==> q.flags.chunked
    ensures q.state.ChunkSizeStart? ==> Count(q).nread == 1
    ensures q.state.ChunkData? || q.state.BodyIdentity? ==> q.contentLength > 0
  {
  }

  lemma NeverEof(q: Parser)
    requires Inv(q)
    ensures !q.state.BodyIdentityEof?
  {
  }

  lemma StartSafe(q: Parser, ch: char)
    requires Inv(q) && InStart(q.state)
    ensures Safe(StartByte(q, ch))
  {
    hide StartByte;
    StartFrame(q, ch);
  }

  lemma StatusLineSafe(q: Parser, ch: char)
    requires Inv(q) && InStatusLine(q.state)
    ensures Safe(StatusLineByte(q, ch))
  {
    hide StatusLineByte;
    StatusLineFrame(q, ch);
  }

  lemma UrlSafe(q: Parser, ch: char)
    requires Inv(q) && InUrl(q.state)
    ensures Safe(UrlByte(q, ch))
  {
    hide UrlByte;
    UrlFrame(q, ch);
  }

  lemma RequestVersionSafe(q: Parser, ch: char)
    requires Inv(q) && InRequestVersion(q.state)
    ensures Safe(RequestVersionByte(q, ch))
  {
    hide RequestVersionByte;
    RequestVersionFrame(q, ch);
  }

  lemma EndOfHeadersSafe(q: Parser, ch: char)
    requires Inv(q) && q.state.HeadersAlmostDone?
    ensures Safe(EndOfHeaders(q, ch))
  {
    hide SummaryOf, ShouldKeepAlive;
  }

  lemma HeaderNameSafe(q: Parser, ch: char)
    requires Inv(q) && InHeaderName(q.state)
    ensures Safe(HeaderNameByte(q, ch))
  {
    hide NameByte, Token, EndOfHeaders;
    if q.state.HeaderFieldStart? {
      EndOfHeadersSafe(q.(state := HeadersAlmostDone), ch);
    } else {
      NameFrame(q, ch, Token(ch));
    }
  }

  lemma HeaderLineKeeps(q: Parser, q': Parser)
    requires Inv(q) && InHeaderValue(q.state)
    requires InHeaderValue(q'.state) || q'.state.HeaderFieldStart?
    requires q' == q.(state := q'.state, headerState := q'.headerState, index := q'.index,
                      contentLength := q'.contentLength, flags := q'.flags)
    requires q'.index < 256 && (q'.contentLength == q.contentLength || q'.contentLength < SIZE_MODULUS)
    requires q'.flags.trailing == q.flags.trailing && (q.flags.chunked ==> q'.flags.chunked)
    requires q'.state.HeaderValueStart? ==> q'.state == q.state && q'.headerState == q.headerState
    requires q'.state.HeaderValue? ==> ValuePhase(q'.headerState) && ValueIndex(q'.headerState, q'.index)
    ensures Inv(q')
  {
  }

  /** A byte after the colon ends the value, or goes on with it. */
  lemma ValueMoves(q: Parser, ch: char)
    requires InHeaderValue(q.state) && Inv(q)
    ensures !HeaderValueByte(q, ch).Upgraded?
    ensures var o := HeaderValueByte(q, ch);
            o.Next? ==>
              && o.q.kind == q.kind && o.q.flags.trailing == q.flags.trailing
              && (o.signals == [] || o.signals == [Flush(Value)])
              && (o.q.state.HeaderFieldStart? || InHeaderValue(o.q.state))
  {
    hide FirstValueByte, ValueByte, EndOfValue, Inv, ValuePhase, ValueIndex;
    HeaderPhases(q);
    FirstValueFrame(q, ch);
    EndOfValueFrame(q, []);
    EndOfValueFrame(q, [Flush(Value)]);
    if q.state.HeaderValue? { ValueFrame(q, ch); }
  }

  lemma ValueStartSafe(q: Parser, ch: char)
    requires Inv(q) && q.state.HeaderValueStart?
    ensures Safe(HeaderValueByte(q, ch))
  {
    hide FirstValueByte, Inv, ValuePhase, ValueIndex;
    HeaderPhases(q);
    FirstValueFrame(q, ch);
    var o := HeaderValueByte(q, ch);
    if o.Next? { HeaderLineKeeps(q, o.q); }
  }

  lemma InValueSafe(q: Parser, ch: char)
    requires Inv(q) && q.state.HeaderValue?
    ensures Safe(HeaderValueByte(q, ch))
  {
    hide ValueByte, EndOfValue, Inv, ValuePhase, ValueIndex;
    HeaderPhases(q);
    EndOfValueFrame(q, [Flush(Value)]);
    ValueFrame(q, ch);
    var o := HeaderValueByte(q, ch);
    if o.Next? { HeaderLineKeeps(q, o.q); }
  }

  lemma HeaderValueSafe(q: Parser, ch: char)
    requires Inv(q) && InHeaderValue(q.state)
    ensures Safe(HeaderValueByte(q, ch))
  {
    match q.state {
      case HeaderValueStart => hide *; ValueStartSafe(q, ch);
      case HeaderValue => hide *; InValueSafe(q, ch);
      case HeaderAlmostDone =>
        hide FirstValueByte, ValueByte, EndOfValue, Inv;
        HeaderPhases(q);
        EndOfValueFrame(q, []);
        if ch == LF { HeaderLineKeeps(q, EndOfValue(q, []).q); }
    }
  }

  predicate Uncounted(s: State) {
    s.ChunkSizeStart? || s.ChunkData? || s.ChunkDataAlmostDone? || s.ChunkDataDone? || s.BodyIdentity?
  }

  /** The invariant in a body, spelt out. */
  lemma InvInBody(q: Parser)
    requires InBody(q.state) && !q.state.BodyIdentityEof?
    ensures Inv(q) <==>
              && Framed(q) && q.index < 256 && !q.kind.Both?
              && (q.state.BodyIdentity? || q.flags.chunked)
              && (Uncounted(q.state) ==> q.nread == 0)
              && (q.state.ChunkData? || q.state.BodyIdentity? ==> q.contentLength > 0)
  {
  }

  lemma InvBetween(q: Parser)
    requires q.state.Dead? || q.state.StartReq? || q.state.StartRes? || q.state.HeaderFieldStart?
    requires q.index < 256 && !q.kind.Both? && Framed(q)
    ensures Inv(q)
  {
  }

  lemma IdentitySafe(q: Parser, ch: char)
    requires Inv(q) && q.state.BodyIdentity?
    ensures Safe(BodyStep(q, ch))
  {
    hide ShouldKeepAlive, Inv;
    InvInBody(q);
    var o := BodyStep(q, ch);
    if o.q.state.BodyIdentity? { InvInBody(o.q); } else { InvBetween(o.q); }
  }

  /** In `s_chunk_size_start` the counter has just been incremented from 0. */
  lemma ChunkSizeSafe(q: Parser, ch: char)
    requires Inv(q) && (q.state.ChunkSizeStart? || q.state.ChunkSize? || q.state.ChunkParameters?)
    ensures Safe(BodyStep(Count(q), ch))
  {
    hide Unhex, Wrap, Inv;
    InvInBody(q);
    var o := BodyStep(Count(q), ch);
    if o.Next? { InvInBody(o.q); }
  }

  lemma ChunkEndSafe(q: Parser, ch: char)
    requires Inv(q)
    requires q.state.ChunkSizeAlmostDone? || q.state.ChunkData? || q.state.ChunkDataAlmostDone? || q.state.ChunkDataDone?
    ensures Safe(BodyStep(Count(q), ch))
  {
    hide Inv;
    InvInBody(q);
    var o := BodyStep(Count(q), ch);
    if o.Next? {
      if o.q.state.HeaderFieldStart? { InvBetween(o.q); } else { InvInBody(o.q); }
    }
  }

  lemma BodySafe(q: Parser, ch: char)
    requires Inv(q) && InBody(q.state)
    ensures Safe(BodyStep(Count(q), ch))
  {
    hide BodyStep, Inv, Safe;
    NeverEof(q);
    match q.state
    case BodyIdentity => IdentitySafe(q, ch);
    case ChunkSizeStart | ChunkSize | ChunkParameters => ChunkSizeSafe(q, ch);
    case ChunkSizeAlmostDone | ChunkData | ChunkDataAlmostDone | ChunkDataDone => ChunkEndSafe(q, ch);
  }

  lemma CountSafe(q: Parser)
    requires Inv(q) && !InBody(q.state)
    ensures Inv(Count(q))
  {
  }

  /** No assertion of the C code fires on any byte, and the invariant is kept. */
  lemma FreeStepSafe(q: Parser, ch: char)
    requires Inv(q)
    ensures Safe(FreeStep(q, ch))
  {
    hide StartByte, StatusLineByte, UrlByte, RequestVersionByte, HeaderNameByte, HeaderValueByte,
         BodyStep, EndOfHeaders, Inv;
    var c := Count(q);
    if !InBody(q.state) { CountSafe(q); }
    if InStart(q.state) { StartSafe(c, ch); }
    else if InStatusLine(q.state) { StatusLineSafe(c, ch); }
    else if InUrl(q.state) { UrlSafe(c, ch); }
    else if InRequestVersion(q.state) { RequestVersionSafe(c, ch); }
    else if InHeaderName(q.state) { HeaderNameSafe(c, ch); }
    else if InHeaderValue(q.state) { HeaderValueSafe(c, ch); }
    else if InBody(q.state) { BodySafe(q, ch); }
    else if q.state.HeadersAlmostDone? { EndOfHeadersSafe(c, ch); }
  }

  lemma StepSafe(q: Parser, ch: char)
    requires Inv(q)
    ensures Safe(Step(q, ch))
  {
    hide FreeStep;
    FreeStepSafe(q, ch);
  }

  /** Whatever the fields held that `http_parser_init` leaves alone. */
  lemma InitSafe(q: Parser, t: ParserType)
    requires q.index < 256
    ensures Inv(Init(q, t))
  {
  }

  lemma NarrowSafe(q: Parser)
    requires Inv(q)
    ensures Inv(Narrow(q)) && Narrow(q) == q.(nread := q.nread % 256)
  {
  }

  /** Over every buffer: no assertion fires, and what is stored satisfies the invariant. */
  lemma {:induction false} FeedSafe(q: Parser, s: string)
    requires Inv(q)
    ensures var r := Feed(q, s);
            if r.Consumed? then Inv(r.q) && Inv(Narrow(r.q)) else r.reason != AssertionFails
    decreases |s|
  {
    hide Step;
    if s != [] {
      StepSafe(q, s[0]);
      var o := Step(q, s[0]);
      if o.Next? { FeedSafe(o.q, s[1..]); }
    }
  }
}
