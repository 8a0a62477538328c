/** A parser that was told to expect either kind of message: the first two bytes decide, and
    from then on it is the parser of that kind. */
module Either {
  import opened Syntax
  import opened Machine
  import opened Messages
  import opened Marks
  import opened Frames
  import opened Invariant
  import opened Split
  import opened Targets
  import opened Headers
  import opened HeaderLines
  import opened Framing
  import opened Chunked
  import Methods
  import Q = Request
  import R = Response

  // ----- The first bytes -----

  lemma BlankByteBoth(q: Parser, ch: char)
    requires q.state.StartReqOrRes? && (ch == CR || ch == LF) && q.nread < MAX_HEADER_SIZE
    ensures OneByte(Step(q, ch), ch) == Consumed(q.(nread := q.nread + 1), [])
  {
  }

  /** Empty lines before a message are only counted, as by a parser of requests. */
  lemma {:induction false} BlankBoth(q: Parser, blank: string)
    requires q.state.StartReqOrRes? && AllBlank(blank) && q.nread + |blank| <= MAX_HEADER_SIZE
    ensures Feed(q, blank) == Consumed(q.(nread := q.nread + |blank|), [])
    decreases |blank|
  {
    hide Step;
    if blank != [] {
      BlankByteBoth(q, blank[0]);
      BlankBoth(q.(nread := q.nread + 1), blank[1..]);
    }
  }

  /** Two parsers that differ only in what they were told to expect. */
  predicate Told(both: Parser, one: Parser, t: ParserType) {
    && both.state.StartReqOrRes? && both.kind.Both? && one.kind == t && both.nread < MAX_HEADER_SIZE - 1
    && (t.Request? ==> one.state.StartReq?) && (t.Response? ==> one.state.StartRes?) && !t.Both?
    && one == both.(kind := t, state := one.state)
  }

  /** `H` says nothing yet. */
  lemma FirstH(both: Parser, one: Parser, t: ParserType)
    requires Told(both, one, t)
    ensures Step(both, 'H') == Next(BeginMessage(both).(state := ResOrRespH, nread := both.nread + 1), [MessageBegin])
    ensures t.Response? ==>
              Step(one, 'H') == Next(BeginMessage(one).(state := ResH, nread := one.nread + 1), [MessageBegin])
    ensures t.Request? ==>
              Step(one, 'H') == Next(BeginMessage(one).(state := ReqMethod, meth := HEAD, index := 1, nread := one.nread + 1),
                                     [MessageBegin])
  {
  }

  lemma SecondT(both: Parser, one: Parser)
    requires both.state.ResOrRespH? && one.state.ResH? && both.nread < MAX_HEADER_SIZE && one.kind.Response?
    requires one == both.(kind := Response, state := ResH)
    ensures Step(both, 'T') == Step(one, 'T') == Next(one.(state := ResHT, nread := one.nread + 1), [])
  {
  }

  lemma SecondOther(both: Parser, one: Parser, ch: char)
    requires both.state.ResOrRespH? && one.state.ReqMethod? && both.nread < MAX_HEADER_SIZE && ch != 'T'
    requires one == both.(kind := Request, state := ReqMethod, meth := HEAD, index := 1)
    ensures OneByte(Step(both, ch), ch) == OneByte(Step(one, ch), ch)
  {
    assert MethodString(HEAD) == "HEAD" && "HEAD"[1] == 'E';
  }

  lemma FirstOther(both: Parser, one: Parser, ch: char)
    requires Told(both, one, Request) && ch != 'H' && ch != CR && ch != LF
    ensures Step(both, ch) == Step(one, ch)
  {
    hide AssignMethod;
    var b, o := BeginMessage(Count(both)), BeginMessage(Count(one));
    Methods.AssignIs(b.(kind := Request), ch);
    Methods.AssignIs(o, ch);
    Methods.FirstIsUpper(ch);
  }

  lemma TwoBytes(q: Parser, a: char, b: char, s: string)
    ensures Feed(q, [a, b] + s) ==
            (var r := OneByte(Step(q, a), a);
             if r.Stopped? then r else After(1, r.events, Feed(r.q, [b] + s)))
    ensures Feed(q, [b] + s) ==
            (var r := OneByte(Step(q, b), b);
             if r.Stopped? then r else After(1, r.events, Feed(r.q, s)))
  {
    hide Step;
    assert ([a, b] + s)[0] == a && ([a, b] + s)[1..] == [b] + s;
    assert ([b] + s)[0] == b && ([b] + s)[1..] == s;
  }

  /** What begins with `HT` is a response from its third byte on. */
  lemma FindsResponse(both: Parser, one: Parser, s: string)
    requires Told(both, one, Response)
    ensures Feed(both, "HT" + s) == Feed(one, "HT" + s)
  {
    hide Feed, Step;
    assert "HT" == ['H', 'T'];
    FirstH(both, one, Response);
    TwoBytes(both, 'H', 'T', s);
    TwoBytes(one, 'H', 'T', s);
    var b, o := Step(both, 'H').q, Step(one, 'H').q;
    TwoBytes(b, 'H', 'T', s);
    TwoBytes(o, 'H', 'T', s);
    SecondT(b, o);
    NothingOpen();
    SameFirst(b, o);
  }

  lemma NothingOpen()
    ensures Open(ResOrRespH) == [] && Open(ResH) == [] && Open(ReqMethod) == []
  {
  }

  /** The begin of a message, as the application hears it. */
  lemma SameFirst(b: Parser, o: Parser)
    requires Open(b.state) == [] && Open(o.state) == []
    ensures ByteEvents(b, [MessageBegin], 'H') == ByteEvents(o, [MessageBegin], 'H')
  {
    hide Open;
  }

  /** What begins otherwise is a request: with `H`, from its second byte on. */
  lemma FindsRequest(both: Parser, one: Parser, s: string)
    requires Told(both, one, Request)
    requires s != [] && s[0] != CR && s[0] != LF && (s[0] == 'H' ==> |s| > 1 && s[1] != 'T')
    ensures Feed(both, s) == Feed(one, s)
  {
    hide Feed, Step;
    if s[0] == 'H' {
      var more := s[2..];
      assert s == ['H', s[1]] + more;
      FirstH(both, one, Request);
      TwoBytes(both, 'H', s[1], more);
      TwoBytes(one, 'H', s[1], more);
      var b, o := Step(both, 'H').q, Step(one, 'H').q;
      TwoBytes(b, 'H', s[1], more);
      TwoBytes(o, 'H', s[1], more);
      SecondOther(b, o, s[1]);
      NothingOpen();
      SameFirst(b, o);
    } else {
      FirstOther(both, one, s[0]);
      OneThenMore(both, s);
      OneThenMore(one, s);
    }
  }

  lemma OneThenMore(q: Parser, s: string)
    requires s != []
    ensures Feed(q, s) ==
            (var r := OneByte(Step(q, s[0]), s[0]);
             if r.Stopped? then r else After(1, r.events, Feed(r.q, s[1..])))
  {
    hide Step;
  }

  // ----- After initialisation -----

  lemma InitTold(p: Parser, n: nat, t: ParserType)
    requires !t.Both? && n < MAX_HEADER_SIZE - 1
    ensures Told(Init(p, Both).(nread := n), Init(p, t).(nread := n), t)
  {
  }

  /** Either kind, exactly, on every input that is long enough to tell: after any empty lines
      `HT` makes the parser the one for responses, anything else the one for requests, and
      the whole run, the kind found included, is that parser's. */
  lemma EitherKind(p: Parser, blank: string, s: string)
    requires AllBlank(blank) && |blank| < MAX_HEADER_SIZE - 1
    requires s != [] && s[0] != CR && s[0] != LF && (s[0] == 'H' ==> |s| > 1)
    ensures var t := if "HT" <= s then Response else Request;
            Feed(Init(p, Both), blank + s) == After(|blank|, [], Feed(Init(p, t).(nread := |blank|), s))
  {
    hide Feed, Init, Step, AllBlank;
    InitIsBoth(p);
    var q, n := Init(p, Both), |blank|;
    BlankBoth(q, blank);
    FeedAppend(q, blank, s);
    if "HT" <= s {
      InitTold(p, n, Response);
      assert s == "HT" + s[2..];
      FindsResponse(q.(nread := n), Init(p, Response).(nread := n), s[2..]);
    } else {
      InitTold(p, n, Request);
      FindsRequest(q.(nread := n), Init(p, Request).(nread := n), s);
    }
  }

  lemma InitIsBoth(p: Parser)
    ensures Init(p, Both).state.StartReqOrRes? && Init(p, Both).nread == 0
  {
  }

  // ----- Printed messages -----

  /** A printed response is read as one. */
  lemma ResponseFound(p: Parser, l: R.StatusLine, hs: seq<HeaderLine>, b: Body)
    requires p.index < 256 && R.StatusOk(l) && forall i :: 0 <= i < |hs| ==> LineOk(hs[i])
    requires |R.PrintStatus(l)| + |Head(hs)| <= MAX_HEADER_SIZE
    requires var g := LinesFields(R.NO_FIELDS, hs); !g.upgrade && BodyOk(b, g)
    ensures var g := LinesFields(R.NO_FIELDS, hs);
            Finished(Feed(Init(p, Both), R.PrintStatus(l) + (Head(hs) + PrintBody(b))), Init(p, Response), NO_MESSAGES,
                     if R.KeepsAlive(Decimal(l.minor), LastFields(b, g)) then StartRes else Dead, Carried(b),
                     WithWholeBody(Announced(R.Began(EMPTY), hs, R.SummaryIs(l, R.KeepsAlive(Decimal(l.minor), g), g.length)), b))
  {
    hide Feed, Init, Inv, R.StatusOk, LineOk, R.PrintStatus, Head, LinesFields, BodyOk, PrintBody, LastFields, Carried,
         WithWholeBody, Announced, R.KeepsAlive, R.AwaitsResponse, Finished;
    R.FreshAwaits(p);
    R.ResponseRoundTrip(Init(p, Response), NO_MESSAGES, l, hs, b);
    var text := R.PrintStatus(l) + (Head(hs) + PrintBody(b));
    BeginsHT(l, Head(hs) + PrintBody(b));
    EitherKind(p, [], text);
    SameInit(p, Response);
    AfterNothing(Feed(Init(p, Response), text));
    assert [] + text == text;
  }

  lemma BeginsHT(l: R.StatusLine, more: string)
    ensures "HT" <= R.PrintStatus(l) + more
  {
    assert "HTTP/"[..2] == "HT";
  }

  lemma SameInit(p: Parser, t: ParserType)
    ensures Init(p, t).(nread := 0) == Init(p, t)
  {
  }

  /** A printed request is read as one, HEAD included. */
  lemma RequestFound(p: Parser, l: Q.RequestLine, hs: seq<HeaderLine>, b: Body)
    requires p.index < 256 && Q.HeadOk(Init(p, Request), l, hs) && BodyOk(b, LinesFields(R.NO_FIELDS, hs))
    ensures Finished(Feed(Init(p, Both), Q.PrintRequestLine(l) + (Head(hs) + PrintBody(b))), Q.AfterLine(Init(p, Request), l),
                     NO_MESSAGES,
                     if Q.Keeps(l, LastFields(b, LinesFields(R.NO_FIELDS, hs))) then StartReq else Dead, Carried(b),
                     WithWholeBody(Q.Asked(l, hs, EMPTY), b))
  {
    hide Feed, Init, Inv, Q.RequestOk, LineOk, Q.PrintRequestLine, Head, LinesFields, BodyOk, PrintBody, LastFields, Carried,
         WithWholeBody, Q.Asked, Q.Keeps, Q.AwaitsRequest, Q.AfterLine, Finished;
    FreshRequest(p);
    NoTargetText();
    Q.RequestRoundTrip(Init(p, Request), NO_MESSAGES, l, hs, b);
    var text := Q.PrintRequestLine(l) + (Head(hs) + PrintBody(b));
    BeginsMethod(l, Head(hs) + PrintBody(b));
    EitherKind(p, [], text);
    SameInit(p, Request);
    AfterNothing(Feed(Init(p, Request), text));
    assert [] + text == text;
  }

  lemma FreshRequest(p: Parser)
    requires p.index < 256
    ensures Q.AwaitsRequest(Init(p, Request))
  {
    hide Inv;
    InitSafe(p, Request);
  }

  lemma BeginsMethod(l: Q.RequestLine, more: string)
    ensures var s := Q.PrintRequestLine(l) + more;
            |s| > 1 && s[0] != CR && s[0] != LF && !("HT" <= s)
  {
    hide Text, Q.PrintEnd;
    var w := Methods.Spelt(l.meth);
    TwoLetters(l.meth);
    var s := Q.PrintRequestLine(l) + more;
    assert s[0] == w[0] && s[1] == w[1];
  }

  lemma TwoLetters(m: Method)
    ensures var w := Methods.Spelt(m); |w| > 1 && w[0] != CR && w[0] != LF && !(w[0] == 'H' && w[1] == 'T')
  {
  }
}
