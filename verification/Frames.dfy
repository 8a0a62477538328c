/** What each group of states reads, what it may change and where it may go.  The
    other modules reason from these facts instead of from the bodies. */
module Frames {
  import opened Syntax
  import opened Machine

  /** The header states of a name; the rest belong to a value. */
  predicate NamePhase(h: HeaderState) {
    !(|| h.MatchingChunked? || h.MatchingKeepAlive? || h.MatchingClose?
      || h.Chunked? || h.KeepAlive? || h.Close?)
  }

  predicate ValuePhase(h: HeaderState) {
    h.General? || h.ContentLength? || !NamePhase(h)
  }

  /** How far a literal can have been matched. */
  predicate NameIndex(h: HeaderState, index: nat) {
    match h
    case C => index == 0
    case CO => index == 1
    case CON => index == 2
    case MatchingConnection => 3 <= index < |CONNECTION| - 1
    case MatchingContentLength => 3 <= index < |CONTENT_LENGTH| - 1
    case MatchingProxyConnection => index < |PROXY_CONNECTION| - 1
    case MatchingTransferEncoding => index < |TRANSFER_ENCODING| - 1
    case MatchingUpgrade => index < |UPGRADE| - 1
    case _ => true
  }

  predicate ValueIndex(h: HeaderState, index: nat) {
    match h
    case MatchingChunked => index < |CHUNKED| - 1
    case MatchingKeepAlive => index < |KEEP_ALIVE| - 1
    case MatchingClose => index < |CLOSE| - 1
    case _ => true
  }

  // ----- What each group of states may change, and where it may go -----

  lemma MethodLength(m: Method)
    ensures 3 <= |MethodString(m)| <= 11
  {
  }

  lemma MethodFrame(q: Parser, ch: char)
    ensures var o := MethodByte(q, ch);
            o.Next? ==>
              && o.q == q.(state := o.q.state, index := q.index + 1, meth := o.q.meth)
              && (o.q.state == q.state || o.q.state.ReqSpacesBeforeUrl?)
              && o.signals == [] && q.index <= 11
    ensures var o := MethodByte(q, ch); !o.Aborted? && !o.Upgraded?
  {
    hide MethodString;
    MethodLength(q.meth);
  }

  predicate StartNext(s: State) {
    InStart(s) || s.ResH? || s.ResHT? || s.ReqSpacesBeforeUrl?
  }

  lemma AssignFrame(q: Parser, ch: char)
    ensures var o := AssignMethod(q, ch);
            o.Next? ==> && o.q == q.(state := ReqMethod, index := 1, meth := o.q.meth)
                        && o.signals == [MessageBegin]
    ensures var o := AssignMethod(q, ch); o.Next? || o.Error?
  {
  }

  /** The states in which a message has not begun. */
  predicate BetweenMessages(s: State) { s.StartReqOrRes? || s.StartReq? || s.StartRes? }

  lemma StartFrame(q: Parser, ch: char)
    requires InStart(q.state)
    ensures var o := StartByte(q, ch);
            o.Next? ==>
              && StartNext(o.q.state)
              && o.q == q.(state := o.q.state, kind := o.q.kind, flags := o.q.flags,
                           contentLength := o.q.contentLength, index := o.q.index, meth := o.q.meth)
              && (|| (o.q.flags == q.flags && o.q.contentLength == q.contentLength)
                  || o.q == BeginMessage(o.q))
              && (BetweenMessages(q.state) && o.q.state != q.state ==> o.q == BeginMessage(o.q))
              && (o.q.index == q.index || o.q.index <= 12)
              && (o.q.state.ReqMethod? ==> 1 <= o.q.index <= 12)
              && (o.q.kind == q.kind || !o.q.kind.Both?)
              && (o.q.kind.Both? ==> o.q.state.StartReqOrRes? || o.q.state.ResOrRespH? || q.state == o.q.state
                                     || !(q.state.StartReqOrRes? || q.state.ResOrRespH?))
    ensures var o := StartByte(q, ch); !o.Aborted? && !o.Upgraded?
  {
    hide MethodByte, AssignMethod;
    MethodFrame(q, ch);
    AssignFrame(BeginMessage(q), ch);
    AssignFrame(BeginMessage(q).(kind := Request), ch);
  }

  predicate StatusLineNext(s: State) { InStatusLine(s) || s.HeaderFieldStart? }

  lemma StatusLineFrame(q: Parser, ch: char)
    requires InStatusLine(q.state)
    ensures var o := StatusLineByte(q, ch);
            o.Next? ==>
              && StatusLineNext(o.q.state) && o.signals == []
              && o.q == q.(state := o.q.state, httpMajor := o.q.httpMajor, httpMinor := o.q.httpMinor,
                           statusCode := o.q.statusCode)
              && (o.q.httpMajor == q.httpMajor || o.q.httpMajor <= 999)
              && (o.q.httpMinor == q.httpMinor || o.q.httpMinor <= 999)
              && (o.q.statusCode == q.statusCode || o.q.statusCode <= 999)
              && (o.q.state.ResHttpMajor? && !q.state.ResHttpMajor? ==> o.q.httpMajor <= 999)
              && (o.q.state.ResHttpMinor? && !q.state.ResHttpMinor? ==> o.q.httpMinor <= 999)
              && (o.q.state.ResStatusCode? && !q.state.ResStatusCode? ==> o.q.statusCode <= 999)
    ensures var o := StatusLineByte(q, ch); o.Next? || o.Error?
  {
  }

  predicate UrlNext(s: State) {
    InUrl(s) || s.ReqHttpStart? || s.ReqLineAlmostDone? || s.HeaderFieldStart?
  }

  lemma UrlFrame(q: Parser, ch: char)
    requires InUrl(q.state)
    ensures var o := UrlByte(q, ch);
            o.Next? ==>
              && UrlNext(o.q.state)
              && (|| o.q == q.(state := o.q.state)
                  || (o.q == q.(state := o.q.state, httpMajor := 0, httpMinor := 9)))
    ensures var o := UrlByte(q, ch); o.Next? || o.Error?
  {
  }

  predicate RequestVersionNext(s: State) { InRequestVersion(s) || s.HeaderFieldStart? }

  lemma RequestVersionFrame(q: Parser, ch: char)
    requires InRequestVersion(q.state)
    ensures var o := RequestVersionByte(q, ch);
            o.Next? ==>
              && RequestVersionNext(o.q.state) && o.signals == []
              && o.q == q.(state := o.q.state, httpMajor := o.q.httpMajor, httpMinor := o.q.httpMinor)
              && (o.q.httpMajor == q.httpMajor || o.q.httpMajor <= 999)
              && (o.q.httpMinor == q.httpMinor || o.q.httpMinor <= 999)
              && (o.q.state.ReqHttpMajor? && !q.state.ReqHttpMajor? ==> o.q.httpMajor <= 999)
              && (o.q.state.ReqHttpMinor? && !q.state.ReqHttpMinor? ==> o.q.httpMinor <= 999)
    ensures var o := RequestVersionByte(q, ch); o.Next? || o.Error?
  {
  }

  lemma NameFrame(q: Parser, ch: char, c: char)
    requires NamePhase(q.headerState) && NameIndex(q.headerState, q.index) && q.index < 256
    ensures var o := NameByte(q, ch, c);
            && o.Next? && o.signals == []
            && o.q == q.(headerState := o.q.headerState, index := o.q.index)
            && NamePhase(o.q.headerState) && NameIndex(o.q.headerState, o.q.index) && o.q.index < 256
  {
  }

  lemma ValueFrame(q: Parser, ch: char)
    requires ValuePhase(q.headerState) && ValueIndex(q.headerState, q.index) && q.index < 256
    ensures var o := ValueByte(q, ch);
            && (o.Next? || o.Error?)
            && (o.Next? ==>
                  && o.q == q.(headerState := o.q.headerState, index := o.q.index, contentLength := o.q.contentLength)
                  && (o.q.contentLength == q.contentLength || o.q.contentLength < SIZE_MODULUS)
                  && o.signals == []
                  && ValuePhase(o.q.headerState) && ValueIndex(o.q.headerState, o.q.index) && o.q.index < 256)
  {
  }

  lemma FirstValueFrame(q: Parser, ch: char)
    ensures var o := FirstValueByte(q, ch);
            && (o.Next? || o.Error?)
            && (o.Next? ==>
                  && o.q == q.(state := HeaderValue, index := 0, headerState := o.q.headerState,
                               contentLength := o.q.contentLength, flags := o.q.flags)
                  && (o.q.contentLength == q.contentLength || o.q.contentLength < 10)
                  && (o.q.flags == q.flags || o.q.flags == q.flags.(upgrade := true))
                  && o.signals == []
                  && ValuePhase(o.q.headerState) && ValueIndex(o.q.headerState, 0))
  {
  }


  /** A header line only ever adds flags. */
  predicate MoreFlags(f: Flags, f': Flags) {
    && f'.trailing == f.trailing && f'.upgrade == f.upgrade
    && (f.chunked ==> f'.chunked) && (f.keepAlive ==> f'.keepAlive) && (f.close ==> f'.close)
  }

  lemma EndOfValueFrame(q: Parser, flushed: seq<Signal>)
    ensures var o := EndOfValue(q, flushed);
            && o.Next? && o.signals == flushed && MoreFlags(q.flags, o.q.flags)
            && o.q == q.(state := HeaderFieldStart, flags := o.q.flags)
  {
  }

  /** An empty line that is only LF. */
  lemma BareEnd(q: Parser)
    requires q.state.HeaderFieldStart?
    ensures HeaderNameByte(q, LF) == EndOfHeaders(q.(state := HeadersAlmostDone), LF)
  {
  }

  // ----- Two parsers that agree on what a group reads do the same -----

  /** The same branch was taken: same callbacks, same next state. */
  predicate Alike(o1: Outcome, o2: Outcome) {
    match (o1, o2)
    case (Next(q1, s1), Next(q2, s2)) => s1 == s2 && q1.state == q2.state
    case (Error, Error) => true
    case (Aborted, Aborted) => true
    case (Stray, Stray) => true
    case _ => false
  }

  /** A field was set to the same value in both, or left alone in both. */
  predicate Moved<T(==)>(before1: T, before2: T, after1: T, after2: T) {
    after1 == after2 || (after1 == before1 && after2 == before2)
  }

  lemma MethodAgree(q1: Parser, q2: Parser, ch: char)
    requires q1.meth == q2.meth && q1.index == q2.index && q1.state == q2.state
    ensures Alike(MethodByte(q1, ch), MethodByte(q2, ch))
    ensures var o1, o2 := MethodByte(q1, ch), MethodByte(q2, ch);
            o1.Next? ==> o1.q.meth == o2.q.meth
  {
    hide MethodString;
  }

  lemma AssignAgree(q1: Parser, q2: Parser, ch: char)
    ensures Alike(AssignMethod(q1, ch), AssignMethod(q2, ch))
    ensures var o1, o2 := AssignMethod(q1, ch), AssignMethod(q2, ch);
            o1.Next? ==> o1.q.meth == o2.q.meth
  {
  }

  lemma StartAgree(q1: Parser, q2: Parser, ch: char)
    requires InStart(q1.state) && q1.state == q2.state && q1.kind == q2.kind
    requires q1.state.ReqMethod? ==> q1.meth == q2.meth && q1.index == q2.index
    ensures Alike(StartByte(q1, ch), StartByte(q2, ch))
    ensures var o1, o2 := StartByte(q1, ch), StartByte(q2, ch);
            o1.Next? ==>
              && o1.q.kind == o2.q.kind
              && Moved(q1.flags, q2.flags, o1.q.flags, o2.q.flags)
              && Moved(q1.contentLength, q2.contentLength, o1.q.contentLength, o2.q.contentLength)
              && Moved(q1.index, q2.index, o1.q.index, o2.q.index)
              && Moved(q1.meth, q2.meth, o1.q.meth, o2.q.meth)
              && (BetweenMessages(q1.state) && o1.q.state != q1.state ==>
                    o1.q.flags == o2.q.flags && o1.q.contentLength == o2.q.contentLength)
              && (o1.q.state.ReqMethod? ==> o1.q.meth == o2.q.meth && o1.q.index == o2.q.index)
  {
    hide MethodByte, AssignMethod;
    if q1.state.ReqMethod? {
      MethodAgree(q1, q2, ch);
      MethodFrame(q1, ch);
      MethodFrame(q2, ch);
    } else {
      var b1, b2 := BeginMessage(q1), BeginMessage(q2);
      AssignAgree(b1, b2, ch);
      AssignAgree(b1.(kind := Request), b2.(kind := Request), ch);
      AssignFrame(b1, ch);
      AssignFrame(b2, ch);
      AssignFrame(b1.(kind := Request), ch);
      AssignFrame(b2.(kind := Request), ch);
    }
  }

  predicate SameVersion(q1: Parser, q2: Parser, o1: Outcome, o2: Outcome) {
    o1.Next? && o2.Next? ==>
      && Moved(q1.httpMajor, q2.httpMajor, o1.q.httpMajor, o2.q.httpMajor)
      && Moved(q1.httpMinor, q2.httpMinor, o1.q.httpMinor, o2.q.httpMinor)
      && Moved(q1.statusCode, q2.statusCode, o1.q.statusCode, o2.q.statusCode)
  }

  predicate BeforeStatus(s: State) {
    || s.ResH? || s.ResHT? || s.ResHTT? || s.ResHTTP?
    || s.ResFirstHttpMajor? || s.ResHttpMajor? || s.ResFirstHttpMinor? || s.ResHttpMinor?
  }

  lemma ResponseVersionAgree(q1: Parser, q2: Parser, ch: char)
    requires BeforeStatus(q1.state) && q1.state == q2.state
    requires q1.state.ResHttpMajor? ==> q1.httpMajor == q2.httpMajor
    requires q1.state.ResHttpMinor? ==> q1.httpMinor == q2.httpMinor
    ensures Alike(StatusLineByte(q1, ch), StatusLineByte(q2, ch))
    ensures SameVersion(q1, q2, StatusLineByte(q1, ch), StatusLineByte(q2, ch))
  {
  }

  lemma StatusAgree(q1: Parser, q2: Parser, ch: char)
    requires InStatusLine(q1.state) && !BeforeStatus(q1.state) && q1.state == q2.state
    requires q1.state.ResStatusCode? ==> q1.statusCode == q2.statusCode
    ensures Alike(StatusLineByte(q1, ch), StatusLineByte(q2, ch))
    ensures SameVersion(q1, q2, StatusLineByte(q1, ch), StatusLineByte(q2, ch))
  {
  }

  lemma StatusLineAgree(q1: Parser, q2: Parser, ch: char)
    requires InStatusLine(q1.state) && q1.state == q2.state
    requires q1.state.ResHttpMajor? ==> q1.httpMajor == q2.httpMajor
    requires q1.state.ResHttpMinor? ==> q1.httpMinor == q2.httpMinor
    requires q1.state.ResStatusCode? ==> q1.statusCode == q2.statusCode
    ensures Alike(StatusLineByte(q1, ch), StatusLineByte(q2, ch))
    ensures SameVersion(q1, q2, StatusLineByte(q1, ch), StatusLineByte(q2, ch))
  {
    hide StatusLineByte, Alike, SameVersion;
    if BeforeStatus(q1.state) { ResponseVersionAgree(q1, q2, ch); } else { StatusAgree(q1, q2, ch); }
  }

  /** The outcome of a byte of the target, for another parser in the same state. */
  function UrlAgain(q: Parser, o: Outcome): Outcome {
    match o
    case Next(p, signals) =>
      Next(if p.state.ReqLineAlmostDone? || p.state.HeaderFieldStart?
           then q.(state := p.state, httpMajor := 0, httpMinor := 9) else q.(state := p.state), signals)
    case _ => Error
  }

  lemma AuthorityLocal(q: Parser, p: Parser, ch: char)
    requires q.state == p.state
    requires p.state.ReqSpacesBeforeUrl? || p.state.ReqSchema? || p.state.ReqSchemaSlash?
             || p.state.ReqSchemaSlashSlash? || p.state.ReqHost? || p.state.ReqPort?
    ensures UrlByte(q, ch) == UrlAgain(q, UrlByte(p, ch))
  {
  }

  lemma PathLocal(q: Parser, p: Parser, ch: char)
    requires q.state == p.state
    requires p.state.ReqPath? || p.state.ReqQueryStringStart? || p.state.ReqQueryString?
             || p.state.ReqFragmentStart? || p.state.ReqFragment?
    ensures UrlByte(q, ch) == UrlAgain(q, UrlByte(p, ch))
  {
  }

  /** In the target only the state matters. */
  lemma UrlLocal(q: Parser, p: Parser, ch: char)
    requires InUrl(p.state) && q.state == p.state
    ensures UrlByte(q, ch) == UrlAgain(q, UrlByte(p, ch))
  {
    hide UrlByte, UrlAgain;
    match p.state
    case ReqPath | ReqQueryStringStart | ReqQueryString | ReqFragmentStart | ReqFragment => PathLocal(q, p, ch);
    case _ => AuthorityLocal(q, p, ch);
  }

  lemma RequestVersionAgree(q1: Parser, q2: Parser, ch: char)
    requires InRequestVersion(q1.state) && q1.state == q2.state
    requires q1.state.ReqHttpMajor? ==> q1.httpMajor == q2.httpMajor
    requires q1.state.ReqHttpMinor? ==> q1.httpMinor == q2.httpMinor
    ensures Alike(RequestVersionByte(q1, ch), RequestVersionByte(q2, ch))
    ensures var o1, o2 := RequestVersionByte(q1, ch), RequestVersionByte(q2, ch);
            o1.Next? ==>
              && Moved(q1.httpMajor, q2.httpMajor, o1.q.httpMajor, o2.q.httpMajor)
              && Moved(q1.httpMinor, q2.httpMinor, o1.q.httpMinor, o2.q.httpMinor)
  {
  }

  lemma NameAgree(q1: Parser, q2: Parser, ch: char, c: char)
    requires q1.headerState == q2.headerState && q1.index == q2.index && q1.state == q2.state
    ensures Alike(NameByte(q1, ch, c), NameByte(q2, ch, c))
    ensures var o1, o2 := NameByte(q1, ch, c), NameByte(q2, ch, c);
            o1.Next? ==> o1.q.headerState == o2.q.headerState && o1.q.index == o2.q.index
  {
  }

  lemma ValueAgree(q1: Parser, q2: Parser, ch: char)
    requires q1.headerState == q2.headerState && q1.index == q2.index && q1.state == q2.state
    requires q1.contentLength == q2.contentLength
    ensures Alike(ValueByte(q1, ch), ValueByte(q2, ch))
    ensures var o1, o2 := ValueByte(q1, ch), ValueByte(q2, ch);
            o1.Next? ==> o1.q.headerState == o2.q.headerState && o1.q.index == o2.q.index
                         && o1.q.contentLength == o2.q.contentLength
  {
    hide Lower;
  }

  lemma FirstValueAgree(q1: Parser, q2: Parser, ch: char)
    requires q1.headerState == q2.headerState
    ensures Alike(FirstValueByte(q1, ch), FirstValueByte(q2, ch))
    ensures var o1, o2 := FirstValueByte(q1, ch), FirstValueByte(q2, ch);
            o1.Next? ==>
              && o1.q.headerState == o2.q.headerState
              && Moved(q1.contentLength, q2.contentLength, o1.q.contentLength, o2.q.contentLength)
              && (q1.flags == q2.flags ==> o1.q.flags == o2.q.flags)
  {
  }

  lemma EndOfValueAgree(q1: Parser, q2: Parser, flushed: seq<Signal>)
    requires q1.headerState == q2.headerState && q1.flags == q2.flags
    ensures EndOfValue(q1, flushed).q.flags == EndOfValue(q2, flushed).q.flags
  {
  }
}
