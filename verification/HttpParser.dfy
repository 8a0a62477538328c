/** `http_parser` as the C code has it: stored fields, a loop over the buffer with
    local copies of some of them, marks, callbacks, and jumps over body bytes. */
module HttpParser {
  import opened Syntax
  import opened M = Machine
  import opened Messages
  import opened Frames
  import opened Invariant
  import opened Marks
  import opened Bodies
  import opened Delivery
  import opened Split
  import opened Independence
  import opened Protocol
  import opened Targets
  import opened UrlCalls

  /** How a branch of the `switch` goes on: with the next byte, to the label `error`,
      out of the function, or in a way that C leaves undefined. */
  datatype Flow = Continue | GotoError | Return | Undefined

  /** The local variables of `http_parser_execute` that are not the parser's fields. */
  datatype Locals = Locals(state: State, headerState: HeaderState, index: nat, nread: nat, marks: Marks)

  /** A branch did what the machine does: same parser, same marks, same callbacks. */
  ghost predicate Did(o: Outcome, flow: Flow, q': Parser, marks': Marks,
                      marks: Marks, starting: bool, data: string, p: nat, log: seq<Event>, log': seq<Event>) {
    match o
    case Next(q, signals) =>
      && flow.Continue? && q' == q && marks' == Remark(marks, q.state, p)
      && log' == log + Delivered(signals, marks, data, p)
    case Upgraded(q, signals) =>
      flow.Return? && q' == q && log' == log + Delivered(signals, marks, data, p)
    case Error => flow.GotoError? && (log' == log || (starting && log' == log + [Begin]))
    case Stray => flow.Undefined?
    case Aborted => false
  }

  /** A call did what the byte-by-byte run of the buffer does: it consumed the buffer,
      or it returned the index of the byte that ended it. */
  ghost predicate Executed(r: Run, length: nat, n: nat, flow: Flow, stored: Parser, x: Inbox, x': Inbox) {
    match r
    case Consumed(q, es) =>
      flow.Continue? && n == length && stored == Narrow(q) && x' == Collect(x, es)
    case Stopped(at, es, BadByte) =>
      flow.GotoError? && n == at && stored.state == Dead && x'.done == Collect(x, es).done
    case Stopped(at, es, OtherProtocol) =>
      flow.Return? && n == at && stored.upgrade && x' == Collect(x, es)
    case Stopped(_, _, UndefinedStep) => flow.Undefined?
    case Stopped(_, _, AssertionFails) => false
  }

  /** The callbacks `es` of one turn of the loop, or of a whole call, come in order. */
  ghost predicate Told(q: Parser, flow: Flow, es: seq<Event>, q': Parser) {
    match flow
    case Continue => Obeys(q, es, q') && Becomes(q.kind, q'.kind) && Settled(q')
    case GotoError => InOrder(q, es)
    case Return => Ends(q, es)
    case Undefined => true
  }

  ghost predicate TurnTold(q: Parser, flow: Flow, es: seq<Event>, q': Parser) {
    match flow
    case Continue => Obeys(q, es, q') && Becomes(q.kind, q'.kind) && Settled(q')
    case GotoError => HeardAll(q, es, q.kind)
    case Return => Finishes(q, es, q.kind)
    case Undefined => true
  }

  lemma ToldTurn(q0: Parser, es: seq<Event>, q: Parser, flow: Flow, es': seq<Event>, q': Parser)
    requires Told(q0, Continue, es, q) && TurnTold(q, flow, es', q')
    ensures Told(q0, flow, es + es', q')
    ensures flow.Continue? ==> Settled(q')
  {
    hide Obeys, HeardAll, Finishes, InOrder, Ends, Settled;
    if flow.Continue? { ObeysThen(q0, es, q, es', q'); }
    else { ObeysThenStops(q0, es, q, es'); }
  }

  /** The URLs told by the callbacks `es` of a call on `data`: each request's once and whole,
      but for one that the buffer cuts off. */
  ghost predicate UrlsTold(q0: Parser, data: string, n: nat, flow: Flow, es: seq<Event>, q': Parser) {
    match flow
    case Continue => TellsAll(q0, es, q') && (!InTarget(q'.state) ==> TellsUrls(q0, es, q'))
    case GotoError => n < |data| && Feed(q0, data[..n]).Consumed? && TellsUrls(q0, es, Feed(q0, data[..n]).q)
    case Return => TellsLast(q0, es)
    case Undefined => true
  }

  lemma UrlsStopped(q0: Parser, data: string, p: nat, q: Parser, told: seq<Event>, news: seq<Event>, flow: Flow, q': Parser)
    requires TellsUrls(q0, told, q) && p < |data| && Feed(q0, data[..p]).Consumed? && Feed(q0, data[..p]).q == q
    requires flow.GotoError? ==> TellsUrls(q, news, q)
    requires flow.Return? ==> TellsLast(q, news)
    ensures !flow.Continue? ==> UrlsTold(q0, data, p, flow, told + news, q')
  {
    hide Feed, TellsUrls, TellsLast;
    if flow.GotoError? { TellsThen(q0, told, q, news, q); }
    if flow.Return? { TellsThenAll(q0, told, q, news, q); }
  }

  lemma UrlsAtEnd(q0: Parser, data: string, q: Parser, told: seq<Event>, news: seq<Event>, q': Parser)
    requires TellsUrls(q0, told, q) && TellsAll(q, news, q') && (!InTarget(q'.state) ==> TellsUrls(q, news, q'))
    ensures UrlsTold(q0, data, |data|, Continue, told + news, q')
  {
    hide TellsUrls, TellsAll, InTarget;
    TellsThenAll(q0, told, q, news, q');
    if !InTarget(q'.state) { TellsThen(q0, told, q, news, q'); }
  }

  /** What the refusal of the byte at `p` leaves. */
  lemma RefusedByte(q0: Parser, data: string, p: nat, q: Parser, es: seq<Event>, m: Marks, x0: Inbox,
                    log: seq<Event>, news: seq<Event>, stored: Parser)
    requires p < |data| && At(q0, data, p, q, es, m, x0, Mail(log))
    requires Step(q, data[p]) == Error && Settled(q) && stored.state.Dead?
    requires news == [] || (news == [Begin] && BetweenMessages(q.state))
    ensures TurnTold(q, GotoError, news, stored) && TellsUrls(q, news, q)
    ensures Executed(Feed(q0, data), |data|, p, GotoError, stored, x0, Mail(log + news))
    ensures LacksOpen(q0, data, p, x0, Mail(log + news))
  {
    hide Step, Feed, Fits, Pending, Collect, Mail, HeardAll, LacksOpen, Plain, TellsUrls;
    assert log + [] == log;
    AtError(q0, data, p, q, es, m, x0, log, log + news);
    Lacks(q0, data, p, q, es, m, x0, log, log + news);
    RefusedTells(q, news);
    Silence(q);
    if news != [] { RefusedStart(q); }
  }

  lemma KindKept(q: Parser, es: seq<Event>, q': Parser)
    requires TurnTold(q, Continue, es, q') && q.kind.Request?
    ensures q'.kind.Request?
  {
    hide Obeys, Settled;
  }

  /** A call after calls that were consumed. */
  lemma ToldCall(q0: Parser, es: seq<Event>, q: Parser, flow: Flow, es': seq<Event>, q': Parser)
    requires Told(q0, Continue, es, q) && Told(q, flow, es', q')
    ensures Told(q0, flow, es + es', q')
  {
    hide Obeys, InOrder, Ends, Settled;
    if flow.Continue? { ObeysThen(q0, es, q, es', q'); } else { ObeysThenEnds(q0, es, q, es'); }
  }

  lemma UndefinedRun(r: Run, length: nat, n: nat, stored: Parser, x: Inbox, x': Inbox)
    requires r.Stopped? && r.reason.UndefinedStep?
    ensures Executed(r, length, n, Undefined, stored, x, x')
  {
  }

  lemma UpgradeRun(at: nat, es: seq<Event>, length: nat, stored: Parser, x: Inbox)
    requires stored.upgrade
    ensures Executed(Stopped(at, es, OtherProtocol), length, at, Return, stored, x, Collect(x, es))
  {
  }

  lemma ConsumedRun(q: Parser, es: seq<Event>, n: nat, x: Inbox)
    ensures Executed(Consumed(q, es), n, n, Continue, Narrow(q), x, Collect(x, es))
  {
    hide Narrow, Collect;
  }

  /** A jump over body bytes: the callbacks come in order. */
  lemma BodyTurn(q: Parser, bytes: string, q': Parser)
    requires Settled(q) && |bytes| <= q.contentLength
    requires if q.state.BodyIdentity? then q' == AfterIdentity(q, |bytes|)
             else q.state.ChunkData? && q' == AfterChunkData(q, |bytes|)
    ensures TurnTold(q, Continue, BodyCallbacks(bytes, q.state.BodyIdentity? && |bytes| == q.contentLength), q')
  {
    hide Settled, Obeys, M.NewMessage;
    BodySettled(q, |bytes|);
    NewMessageState(q.(contentLength := 0));
    BodyObeys(q, bytes, q.state.BodyIdentity? && |bytes| == q.contentLength, q');
  }

  lemma LogIs(log0: seq<Event>, told: seq<Event>, news: seq<Event>)
    ensures log0 + told + news == log0 + (told + news)
    ensures var log := log0 + told + news; log0 <= log && log[|log0|..] == told + news
  {
  }

  lemma ToldNothing(q: Parser)
    requires Settled(q)
    ensures Told(q, Continue, [], q)
  {
    hide Settled;
    ObeysNothing(q);
  }

  class HttpParser {
    var kind: ParserType
    var flags: Flags
    var state: State
    var headerState: HeaderState
    var index: nat
    var nread: nat
    var contentLength: nat
    var httpMajor: nat
    var httpMinor: nat
    var statusCode: nat
    var meth: Method
    var upgrade: bool
    /** The callbacks made so far; each returns 0. */
    var log: seq<Event>

    /** The parser as a running call sees it. */
    ghost function View(l: Locals): Parser
      reads this
    {
      Parser(kind, flags, l.state, l.headerState, l.index, l.nread, contentLength,
             httpMajor, httpMinor, statusCode, meth, upgrade)
    }

    /** `CALLBACK`: the mark is cleared by the caller. */
    method Callback(k: Slice, mark: Option<nat>, data: array<char>, p: nat)
      requires mark.Some? && mark.value <= p <= data.Length
      modifies this`log
      ensures log == old(log) + [Data(k, SliceFrom(mark, data[..], p))]
    {
      log := log + [Data(k, data[mark.value..p])];
      assert data[..][mark.value..p] == data[mark.value..p];
    }

    method Notify(e: Event)
      modifies this`log
      ensures log == old(log) + [e]
    {
      log := log + [e];
    }

    // ----- First line of a message -----

    method AssignMethod(ch: char, l: Locals) returns (flow: Flow, l': Locals)
      requires l.marks == NO_MARKS
      modifies this`meth
      ensures match M.AssignMethod(old(View(l)), ch)
              case Next(q, _) => flow.Continue? && View(l') == q && l'.marks == NO_MARKS
              case _ => flow.GotoError?
    {
      flow, l' := Continue, l.(index := 1);
      match ch {
        case 'C' => meth := CONNECT;
        case 'D' => meth := DELETE;
        case 'G' => meth := GET;
        case 'H' => meth := HEAD;
        case 'L' => meth := LOCK;
        case 'M' => meth := MKCOL;
        case 'N' => meth := NOTIFY;
        case 'O' => meth := OPTIONS;
        case 'P' => meth := POST;
        case 'R' => meth := REPORT;
        case 'S' => meth := SUBSCRIBE;
        case 'T' => meth := TRACE;
        case 'U' => meth := UNLOCK;
        case _ => flow := GotoError;
      }
      l' := l'.(state := ReqMethod);
    }

    method MethodByte(ch: char, l: Locals) returns (flow: Flow, l': Locals)
      requires l.state.ReqMethod? && l.marks == NO_MARKS
      modifies this`meth
      ensures match M.MethodByte(old(View(l)), ch)
              case Next(q, _) => flow.Continue? && View(l') == q && l'.marks == NO_MARKS
              case Stray => flow.Undefined?
              case _ => flow.GotoError?
    {
      flow, l' := Continue, l;
      if ch == '\0' { return GotoError, l; }
      var matcher := MethodString(meth);
      if l.index > |matcher| { return Undefined, l; }
      if ch == ' ' && l.index == |matcher| {
        l' := l.(state := ReqSpacesBeforeUrl);
      } else if l.index < |matcher| && ch == matcher[l.index] {
      } else if meth == CONNECT {
        if l.index == 1 && ch == 'H' {
          meth := CHECKOUT;
        } else if l.index == 2 && ch == 'P' {
          meth := COPY;
        }
      } else if meth == MKCOL {
        if l.index == 1 && ch == 'O' {
          meth := MOVE;
        } else if l.index == 1 && ch == 'E' {
          meth := MERGE;
        } else if l.index == 1 && ch == '-' {
          meth := MSEARCH;
        } else if l.index == 2 && ch == 'A' {
          meth := MKACTIVITY;
        }
      } else if l.index == 1 && meth == POST && ch == 'R' {
        meth := PROPFIND;
      } else if l.index == 1 && meth == POST && ch == 'U' {
        meth := PUT;
      } else if l.index == 2 && meth == UNLOCK && ch == 'S' {
        meth := UNSUBSCRIBE;
      } else if l.index == 4 && meth == PROPFIND && ch == 'P' {
        meth := PROPPATCH;
      } else {
        return GotoError, l;
      }
      l' := l'.(index := l.index + 1);
    }

    method StartByte(ch: char, data: array<char>, p: nat, l: Locals) returns (flow: Flow, l': Locals)
      requires InStart(l.state) && l.marks == NO_MARKS
      modifies this`meth, this`kind, this`flags, this`contentLength, this`log
      ensures Did(M.StartByte(old(View(l)), ch), flow, View(l'), l'.marks, l.marks, BetweenMessages(l.state), data[..], p, old(log), log)
    {
      hide M.MethodByte, M.AssignMethod, Remark, Delivered;
      flow, l' := Continue, l;
      assert log + [] == log;
      NoSignals(l.marks, data[..], p);
      Notices(l.marks, data[..], p, SummaryOf(View(l)));
      match l.state {
        case StartReqOrRes =>
          if ch != CR && ch != LF {
            flags, contentLength := NO_FLAGS, SIZE_MODULUS - 1;
            Notify(Begin);
            if ch == 'H' {
              l' := l.(state := ResOrRespH);
            } else {
              kind := Request;
              AssignFrame(View(l), ch);
              flow, l' := AssignMethod(ch, l);
            }
          }
        case ResOrRespH =>
          if ch == 'T' {
            kind := Response;
            l' := l.(state := ResHT);
          } else if ch != 'E' {
            flow := GotoError;
          } else {
            kind, meth := Request, HEAD;
            l' := l.(index := 2, state := ReqMethod);
          }
        case StartRes =>
          flags, contentLength := NO_FLAGS, SIZE_MODULUS - 1;
          Notify(Begin);
          if ch == 'H' {
            l' := l.(state := ResH);
          } else if ch != CR && ch != LF {
            flow := GotoError;
          }
        case StartReq =>
          if ch != CR && ch != LF {
            flags, contentLength := NO_FLAGS, SIZE_MODULUS - 1;
            Notify(Begin);
            if !IsUpper(ch) {
              flow := GotoError;
            } else {
              AssignFrame(View(l), ch);
              flow, l' := AssignMethod(ch, l);
            }
          }
        case ReqMethod =>
          MethodFrame(View(l), ch);
          flow, l' := MethodByte(ch, l);
      }
      if flow.Continue? { NothingOpen(NO_MARKS, l'.state, p); }
    }
  
    // ----- Version and status line of a response, version of a request -----

    method StatusLineByte(ch: char, data: array<char>, p: nat, l: Locals) returns (flow: Flow, l': Locals)
      requires InStatusLine(l.state) && l.marks == NO_MARKS
      modifies this`httpMajor, this`httpMinor, this`statusCode
      ensures Did(M.StatusLineByte(old(View(l)), ch), flow, View(l'), l'.marks, l.marks, BetweenMessages(l.state), data[..], p, log, log)
    {
      hide Remark, Delivered;
      flow, l' := Continue, l;
      assert log + [] == log;
      NoSignals(l.marks, data[..], p);
      match l.state {
        case ResH => if ch != 'T' { flow := GotoError; } else { l' := l.(state := ResHT); }
        case ResHT => if ch != 'T' { flow := GotoError; } else { l' := l.(state := ResHTT); }
        case ResHTT => if ch != 'P' { flow := GotoError; } else { l' := l.(state := ResHTTP); }
        case ResHTTP => if ch != '/' { flow := GotoError; } else { l' := l.(state := ResFirstHttpMajor); }
        case ResFirstHttpMajor =>
          if ch < '1' || ch > '9' {
            flow := GotoError;
          } else {
            httpMajor := DigitValue(ch);
            l' := l.(state := ResHttpMajor);
          }
        case ResHttpMajor =>
          if ch == '.' {
            l' := l.(state := ResFirstHttpMinor);
          } else if !IsDigit(ch) {
            flow := GotoError;
          } else {
            httpMajor := httpMajor * 10;
            httpMajor := httpMajor + DigitValue(ch);
            if httpMajor > 999 { flow := GotoError; }
          }
        case ResFirstHttpMinor =>
          if !IsDigit(ch) {
            flow := GotoError;
          } else {
            httpMinor := DigitValue(ch);
            l' := l.(state := ResHttpMinor);
          }
        case ResHttpMinor =>
          if ch == ' ' {
            l' := l.(state := ResFirstStatusCode);
          } else if !IsDigit(ch) {
            flow := GotoError;
          } else {
            httpMinor := httpMinor * 10;
            httpMinor := httpMinor + DigitValue(ch);
            if httpMinor > 999 { flow := GotoError; }
          }
        case ResFirstStatusCode =>
          if !IsDigit(ch) {
            if ch != ' ' { flow := GotoError; }
          } else {
            statusCode := DigitValue(ch);
            l' := l.(state := ResStatusCode);
          }
        case ResStatusCode =>
          if !IsDigit(ch) {
            match ch {
              case ' ' => l' := l.(state := ResStatus);
              case '\r' => l' := l.(state := ResLineAlmostDone);
              case '\n' => l' := l.(state := HeaderFieldStart);
              case _ => flow := GotoError;
            }
          } else {
            statusCode := statusCode * 10;
            statusCode := statusCode + DigitValue(ch);
            if statusCode > 999 { flow := GotoError; }
          }
        case ResStatus =>
          if ch == CR {
            l' := l.(state := ResLineAlmostDone);
          } else if ch == LF {
            l' := l.(state := HeaderFieldStart);
          }
        case ResLineAlmostDone =>
          if ch != LF { flow := GotoError; } else { l' := l.(state := HeaderFieldStart); }
      }
      NothingOpen(NO_MARKS, l'.state, p);
    }

    method RequestVersionByte(ch: char, data: array<char>, p: nat, l: Locals) returns (flow: Flow, l': Locals)
      requires InRequestVersion(l.state) && l.marks == NO_MARKS
      modifies this`httpMajor, this`httpMinor
      ensures Did(M.RequestVersionByte(old(View(l)), ch), flow, View(l'), l'.marks, l.marks, BetweenMessages(l.state), data[..], p, log, log)
    {
      hide Remark, Delivered;
      flow, l' := Continue, l;
      assert log + [] == log;
      NoSignals(l.marks, data[..], p);
      match l.state {
        case ReqHttpStart =>
          if ch == 'H' {
            l' := l.(state := ReqHttpH);
          } else if ch != ' ' {
            flow := GotoError;
          }
        case ReqHttpH => if ch != 'T' { flow := GotoError; } else { l' := l.(state := ReqHttpHT); }
        case ReqHttpHT => if ch != 'T' { flow := GotoError; } else { l' := l.(state := ReqHttpHTT); }
        case ReqHttpHTT => if ch != 'P' { flow := GotoError; } else { l' := l.(state := ReqHttpHTTP); }
        case ReqHttpHTTP => if ch != '/' { flow := GotoError; } else { l' := l.(state := ReqFirstHttpMajor); }
        case ReqFirstHttpMajor =>
          if ch < '1' || ch > '9' {
            flow := GotoError;
          } else {
            httpMajor := DigitValue(ch);
            l' := l.(state := ReqHttpMajor);
          }
        case ReqHttpMajor =>
          if ch == '.' {
            l' := l.(state := ReqFirstHttpMinor);
          } else if !IsDigit(ch) {
            flow := GotoError;
          } else {
            httpMajor := httpMajor * 10;
            httpMajor := httpMajor + DigitValue(ch);
            if httpMajor > 999 { flow := GotoError; }
          }
        case ReqFirstHttpMinor =>
          if !IsDigit(ch) {
            flow := GotoError;
          } else {
            httpMinor := DigitValue(ch);
            l' := l.(state := ReqHttpMinor);
          }
        case ReqHttpMinor =>
          if ch == CR {
            l' := l.(state := ReqLineAlmostDone);
          } else if ch == LF {
            l' := l.(state := HeaderFieldStart);
          } else if !IsDigit(ch) {
            flow := GotoError;
          } else {
            httpMinor := httpMinor * 10;
            httpMinor := httpMinor + DigitValue(ch);
            if httpMinor > 999 { flow := GotoError; }
          }
        case ReqLineAlmostDone =>
          if ch != LF { flow := GotoError; } else { l' := l.(state := HeaderFieldStart); }
      }
      NothingOpen(NO_MARKS, l'.state, p);
    }

    // ----- The target of a request -----

    /** The three bytes that end a target, after its inner slice was or was not open. */
    method EndUrl(ch: char, l: Locals) returns (flow: Flow, s: State)
      modifies this`httpMajor, this`httpMinor
      ensures match M.EndUrl(old(View(l)), ch, [])
              case Next(q, _) => flow.Continue? && View(l.(state := s)) == q
              case _ => flow.GotoError? && s == l.state
      ensures flow.Continue? ==> Open(s) == []
    {
      flow, s := Continue, l.state;
      match ch {
        case ' ' => s := ReqHttpStart;
        case '\r' =>
          httpMajor, httpMinor := 0, 9;
          s := ReqLineAlmostDone;
        case '\n' =>
          httpMajor, httpMinor := 0, 9;
          s := HeaderFieldStart;
        case _ => flow := GotoError;
      }
    }

    method SchemaByte(ch: char, data: array<char>, p: nat, l: Locals) returns (flow: Flow, l': Locals)
      requires p < data.Length && Fits(l.marks, l.state, p)
      requires l.state.ReqSpacesBeforeUrl? || l.state.ReqSchema? || l.state.ReqSchemaSlash? || l.state.ReqSchemaSlashSlash?
      modifies this`log
      ensures Did(M.UrlByte(old(View(l)), ch), flow, View(l'), l'.marks, l.marks, BetweenMessages(l.state), data[..], p, old(log), log)
    {
      hide Delivered, SliceFrom;
      flow, l' := Continue, l;
      assert log + [] == log;
      NoSignals(l.marks, data[..], p);
      var m := l.marks;
      match l.state {
        case ReqSpacesBeforeUrl =>
          if ch == ' ' {
          } else if ch == '/' || ch == '*' {
            l' := l.(state := ReqPath, marks := m.(url := Some(p), path := Some(p)));
          } else if IsLetter(ch) {
            l' := l.(state := ReqSchema, marks := m.(url := Some(p)));
          } else {
            flow := GotoError;
          }
        case ReqSchema =>
          if IsLetter(ch) {
          } else if ch == ':' {
            l' := l.(state := ReqSchemaSlash);
          } else if ch == '.' || IsDigit(ch) {
            l' := l.(state := ReqHost);
          } else {
            flow := GotoError;
          }
        case ReqSchemaSlash =>
          if ch != '/' { flow := GotoError; } else { l' := l.(state := ReqSchemaSlashSlash); }
        case ReqSchemaSlashSlash =>
          if ch != '/' { flow := GotoError; } else { l' := l.(state := ReqHost); }
      }
    }

    method HostByte(ch: char, data: array<char>, p: nat, l: Locals) returns (flow: Flow, l': Locals)
      requires p < data.Length && Fits(l.marks, l.state, p)
      requires l.state.ReqHost? || l.state.ReqPort?
      modifies this`log
      ensures Did(M.UrlByte(old(View(l)), ch), flow, View(l'), l'.marks, l.marks, BetweenMessages(l.state), data[..], p, old(log), log)
    {
      hide Delivered, SliceFrom;
      flow, l' := Continue, l;
      assert log + [] == log;
      NoSignals(l.marks, data[..], p);
      OneFlush(Url, l.marks, data[..], p, ch);
      var m := l.marks;
      match l.state {
        case ReqHost =>
          if IsLetter(ch) || IsDigit(ch) || ch == '.' || ch == '-' {
          } else if ch == ':' {
            l' := l.(state := ReqPort);
          } else if ch == '/' {
            l' := l.(state := ReqPath, marks := m.(path := Some(p)));
          } else if ch == ' ' {
            Callback(Url, m.url, data, p);
            l' := l.(state := ReqHttpStart, marks := m.(url := None));
          } else {
            flow := GotoError;
          }
        case ReqPort =>
          if IsDigit(ch) {
          } else if ch == '/' {
            l' := l.(state := ReqPath, marks := m.(path := Some(p)));
          } else if ch == ' ' {
            Callback(Url, m.url, data, p);
            l' := l.(state := ReqHttpStart, marks := m.(url := None));
          } else {
            flow := GotoError;
          }
      }
    }

    method PathByte(ch: char, data: array<char>, p: nat, l: Locals) returns (flow: Flow, l': Locals)
      requires p < data.Length
      requires l.state.ReqPath? && Fits(l.marks, l.state, p)
      modifies this`log, this`httpMajor, this`httpMinor
      ensures Did(M.UrlByte(old(View(l)), ch), flow, View(l'), l'.marks, l.marks, BetweenMessages(l.state), data[..], p, old(log), log)
    {
      hide Delivered, SliceFrom, Fits, Remark, Open;
      flow, l' := Continue, l;
      assert log + [] == log;
      NoSignals(l.marks, data[..], p);
      OneFlush(Path, l.marks, data[..], p, ch);
      TwoFlushes(Url, Path, l.marks, data[..], p, ch);
      var m := l.marks;
      PathMarks(m, p);
      if IsUrlChar(ch) {
      } else if ch == '?' {
        Callback(Path, m.path, data, p);
        l' := l.(state := ReqQueryStringStart, marks := m.(path := None));
      } else if ch == '#' {
        Callback(Path, m.path, data, p);
        l' := l.(state := ReqFragmentStart, marks := m.(path := None));
      } else {
        var s;
        flow, s := EndUrl(ch, l);
        if flow.Continue? {
          Callback(Url, m.url, data, p);
          Callback(Path, m.path, data, p);
          NothingOpen(m, s, p);
          l' := l.(state := s, marks := m.(url := None, path := None));
        }
      }
    }

    method QueryStartByte(ch: char, data: array<char>, p: nat, l: Locals) returns (flow: Flow, l': Locals)
      requires p < data.Length
      requires l.state.ReqQueryStringStart? && Fits(l.marks, l.state, p)
      modifies this`log, this`httpMajor, this`httpMinor
      ensures Did(M.UrlByte(old(View(l)), ch), flow, View(l'), l'.marks, l.marks, BetweenMessages(l.state), data[..], p, old(log), log)
    {
      hide Delivered, SliceFrom;
      flow, l' := Continue, l;
      assert log + [] == log;
      NoSignals(l.marks, data[..], p);
      OneFlush(Url, l.marks, data[..], p, ch);
      var m := l.marks;
      if IsUrlChar(ch) {
        l' := l.(state := ReqQueryString, marks := m.(queryString := Some(p)));
      } else if ch == '?' {
      } else if ch == '#' {
        l' := l.(state := ReqFragmentStart);
      } else {
        var s;
        flow, s := EndUrl(ch, l);
        if flow.Continue? {
          Callback(Url, m.url, data, p);
          l' := l.(state := s, marks := m.(url := None));
        }
      }
    }

    method QueryByte(ch: char, data: array<char>, p: nat, l: Locals) returns (flow: Flow, l': Locals)
      requires p < data.Length
      requires l.state.ReqQueryString? && Fits(l.marks, l.state, p)
      modifies this`log, this`httpMajor, this`httpMinor
      ensures Did(M.UrlByte(old(View(l)), ch), flow, View(l'), l'.marks, l.marks, BetweenMessages(l.state), data[..], p, old(log), log)
    {
      hide Delivered, SliceFrom, Fits, Remark, Open;
      flow, l' := Continue, l;
      assert log + [] == log;
      NoSignals(l.marks, data[..], p);
      OneFlush(Query, l.marks, data[..], p, ch);
      TwoFlushes(Url, Query, l.marks, data[..], p, ch);
      var m := l.marks;
      QueryMarks(m, p);
      if IsUrlChar(ch) || ch == '?' {
      } else if ch == '#' {
        Callback(Query, m.queryString, data, p);
        l' := l.(state := ReqFragmentStart, marks := m.(queryString := None));
      } else {
        var s;
        flow, s := EndUrl(ch, l);
        if flow.Continue? {
          Callback(Url, m.url, data, p);
          Callback(Query, m.queryString, data, p);
          NothingOpen(m, s, p);
          l' := l.(state := s, marks := m.(url := None, queryString := None));
        }
      }
    }

    method FragmentStartByte(ch: char, data: array<char>, p: nat, l: Locals) returns (flow: Flow, l': Locals)
      requires p < data.Length
      requires l.state.ReqFragmentStart? && Fits(l.marks, l.state, p)
      modifies this`log, this`httpMajor, this`httpMinor
      ensures Did(M.UrlByte(old(View(l)), ch), flow, View(l'), l'.marks, l.marks, BetweenMessages(l.state), data[..], p, old(log), log)
    {
      hide Delivered, SliceFrom;
      flow, l' := Continue, l;
      assert log + [] == log;
      NoSignals(l.marks, data[..], p);
      OneFlush(Url, l.marks, data[..], p, ch);
      var m := l.marks;
      if IsUrlChar(ch) || ch == '?' {
        l' := l.(state := ReqFragment, marks := m.(fragment := Some(p)));
      } else if ch == '#' {
      } else {
        var s;
        flow, s := EndUrl(ch, l);
        if flow.Continue? {
          Callback(Url, m.url, data, p);
          l' := l.(state := s, marks := m.(url := None));
        }
      }
    }

    method FragmentByte(ch: char, data: array<char>, p: nat, l: Locals) returns (flow: Flow, l': Locals)
      requires p < data.Length
      requires l.state.ReqFragment? && Fits(l.marks, l.state, p)
      modifies this`log, this`httpMajor, this`httpMinor
      ensures Did(M.UrlByte(old(View(l)), ch), flow, View(l'), l'.marks, l.marks, BetweenMessages(l.state), data[..], p, old(log), log)
    {
      hide Delivered, SliceFrom, Fits, Remark, Open;
      flow, l' := Continue, l;
      assert log + [] == log;
      NoSignals(l.marks, data[..], p);
      TwoFlushes(Url, Fragment, l.marks, data[..], p, ch);
      var m := l.marks;
      FragmentMarks(m, p);
      if IsUrlChar(ch) || ch == '?' || ch == '#' {
      } else {
        var s;
        flow, s := EndUrl(ch, l);
        if flow.Continue? {
          Callback(Url, m.url, data, p);
          Callback(Fragment, m.fragment, data, p);
          NothingOpen(m, s, p);
          l' := l.(state := s, marks := m.(url := None, fragment := None));
        }
      }
    }

    // ----- Header names -----

    /** The recogniser on one more byte of a literal. */
    method Match(c: char, literal: string, found: HeaderState, l: Locals) returns (l': Locals)
      ensures View(l') == View(l).(index := l.index + 1,
                headerState := MatchOn(View(l).(index := l.index + 1), c, literal, found))
      ensures l'.marks == l.marks
    {
      l' := l.(index := l.index + 1);
      if l'.index > |literal| || (l'.index < |literal| && c != literal[l'.index])
         || (l'.index == |literal| && c != '\0') {
        l' := l'.(headerState := General);
      } else if l'.index == |literal| - 1 {
        l' := l'.(headerState := found);
      }
    }

    method NameByte(ch: char, c: char, l: Locals) returns (l': Locals)
      requires l.state.HeaderField? && NamePhase(l.headerState) && NameIndex(l.headerState, l.index) && l.index < 256
      ensures M.NameByte(View(l), ch, c) == Next(View(l'), []) && l'.marks == l.marks && l'.state == l.state
    {
      hide MatchOn;
      l' := l;
      match l.headerState {
        case General =>
        case C => l' := l.(index := l.index + 1, headerState := if c == 'o' then CO else General);
        case CO => l' := l.(index := l.index + 1, headerState := if c == 'n' then CON else General);
        case CON =>
          l' := l.(index := l.index + 1);
          match c {
            case 'n' => l' := l'.(headerState := MatchingConnection);
            case 't' => l' := l'.(headerState := MatchingContentLength);
            case _ => l' := l'.(headerState := General);
          }
        case MatchingConnection => l' := Match(c, CONNECTION, Connection, l);
        case MatchingProxyConnection => l' := Match(c, PROXY_CONNECTION, Connection, l);
        case MatchingContentLength => l' := Match(c, CONTENT_LENGTH, ContentLength, l);
        case MatchingTransferEncoding => l' := Match(c, TRANSFER_ENCODING, TransferEncoding, l);
        case MatchingUpgrade => l' := Match(c, UPGRADE, Upgrade, l);
        case Connection | ContentLength | TransferEncoding | Upgrade =>
          if ch != ' ' { l' := l.(headerState := General); }
      }
    }

    method HeaderFieldStartByte(ch: char, data: array<char>, p: nat, l: Locals) returns (flow: Flow, l': Locals)
      requires p < data.Length && Fits(l.marks, l.state, p)
      requires l.state.HeaderFieldStart? && ch != LF
      modifies this`log
      ensures Did(M.HeaderNameByte(old(View(l)), ch), flow, View(l'), l'.marks, l.marks, BetweenMessages(l.state), data[..], p, old(log), log)
    {
      hide Delivered, SliceFrom, M.NameByte, Token, M.EndOfHeaders;
      flow, l' := Continue, l;
      assert log + [] == log;
      NoSignals(l.marks, data[..], p);
      var c := Token(ch);
      if ch == CR {
        l' := l.(state := HeadersAlmostDone);
      } else if c == '\0' {
        flow := GotoError;
      } else {
        l' := l.(index := 0, state := HeaderField, marks := l.marks.(headerField := Some(p)));
        match c {
          case 'c' => l' := l'.(headerState := C);
          case 'p' => l' := l'.(headerState := MatchingProxyConnection);
          case 't' => l' := l'.(headerState := MatchingTransferEncoding);
          case 'u' => l' := l'.(headerState := MatchingUpgrade);
          case _ => l' := l'.(headerState := General);
        }
      }
    }

    method HeaderFieldByte(ch: char, data: array<char>, p: nat, l: Locals) returns (flow: Flow, l': Locals)
      requires p < data.Length && Fits(l.marks, l.state, p)
      requires l.state.HeaderField?
      requires NamePhase(l.headerState) && NameIndex(l.headerState, l.index) && l.index < 256
      modifies this`log
      ensures Did(M.HeaderNameByte(old(View(l)), ch), flow, View(l'), l'.marks, l.marks, BetweenMessages(l.state), data[..], p, old(log), log)
    {
      hide Delivered, SliceFrom, M.NameByte, Token, M.EndOfHeaders, Fits, Remark, NamePhase, NameIndex;
      flow, l' := Continue, l;
      assert log + [] == log;
      NoSignals(l.marks, data[..], p);
      OneFlush(Field, l.marks, data[..], p, ch);
      var m := l.marks;
      FieldMarks(m, p);
      NothingOpen(m, HeaderValueStart, p);
      NothingOpen(m, HeaderAlmostDone, p);
      NothingOpen(m, HeaderFieldStart, p);
      var c := Token(ch);
      if c != '\0' {
        l' := NameByte(ch, c, l);
      } else if ch == ':' {
        Callback(Field, m.headerField, data, p);
        l' := l.(state := HeaderValueStart, marks := m.(headerField := None));
      } else if ch == CR {
        l' := l.(state := HeaderAlmostDone, marks := m.(headerField := None));
        Callback(Field, m.headerField, data, p);
      } else if ch == LF {
        Callback(Field, m.headerField, data, p);
        l' := l.(state := HeaderFieldStart, marks := m.(headerField := None));
      } else {
        flow := GotoError;
      }
    }

    // ----- Header values -----

    method FirstValueByte(ch: char, l: Locals) returns (flow: Flow, l': Locals)
      modifies this`flags, this`contentLength
      ensures match M.FirstValueByte(old(View(l)), ch)
              case Next(q, signals) => flow.Continue? && View(l') == q && l'.marks == l.marks
              case _ => flow.GotoError?
    {
      flow, l' := Continue, l.(state := HeaderValue, index := 0);
      var c := Lower(ch);
      match l.headerState {
        case Upgrade =>
          flags := flags.(upgrade := true);
          l' := l'.(headerState := General);
        case TransferEncoding =>
          l' := l'.(headerState := if c == 'c' then MatchingChunked else General);
        case ContentLength =>
          if !IsDigit(ch) {
            flow := GotoError;
          } else {
            contentLength := DigitValue(ch);
          }
        case Connection =>
          if c == 'k' {
            l' := l'.(headerState := MatchingKeepAlive);
          } else if c == 'c' {
            l' := l'.(headerState := MatchingClose);
          } else {
            l' := l'.(headerState := General);
          }
        case _ => l' := l'.(headerState := General);
      }
    }

    method ValueByte(ch: char, l: Locals) returns (flow: Flow, l': Locals)
      requires l.state.HeaderValue? && ValuePhase(l.headerState)
      modifies this`contentLength
      ensures match M.ValueByte(old(View(l)), ch)
              case Next(q, signals) => flow.Continue? && View(l') == q && l'.marks == l.marks
              case _ => flow.GotoError?
    {
      hide MatchOn;
      flow, l' := Continue, l;
      var c := Lower(ch);
      match l.headerState {
        case General =>
        case ContentLength =>
          if ch != ' ' {
            if !IsDigit(ch) {
              flow := GotoError;
            } else {
              contentLength := Wrap(contentLength * 10 + DigitValue(ch));
            }
          }
        case MatchingChunked => l' := Match(c, CHUNKED, Chunked, l);
        case MatchingKeepAlive => l' := Match(c, KEEP_ALIVE, KeepAlive, l);
        case MatchingClose => l' := Match(c, CLOSE, Close, l);
        case Chunked | KeepAlive | Close =>
          if ch != ' ' { l' := l.(headerState := General); }
      }
    }

    /** The label `header_almost_done`. */
    method EndOfValue(l: Locals) returns (l': Locals)
      modifies this`flags
      ensures M.EndOfValue(old(View(l)), []) == Next(View(l'), [])
      ensures l'.marks == l.marks && l'.state == HeaderFieldStart
    {
      l' := l.(state := HeaderFieldStart);
      match l.headerState {
        case KeepAlive => flags := flags.(keepAlive := true);
        case Close => flags := flags.(close := true);
        case Chunked => flags := flags.(chunked := true);
        case _ =>
      }
    }

    method HeaderValueStartByte(ch: char, data: array<char>, p: nat, l: Locals) returns (flow: Flow, l': Locals)
      requires p < data.Length && Fits(l.marks, l.state, p)
      requires l.state.HeaderValueStart?
      modifies this`log, this`flags, this`contentLength
      ensures Did(M.HeaderValueByte(old(View(l)), ch), flow, View(l'), l'.marks, l.marks, BetweenMessages(l.state), data[..], p, old(log), log)
    {
      hide Delivered, M.ValueByte, M.FirstValueByte, M.EndOfValue, Fits, Remark;
      flow, l' := Continue, l;
      assert log + [] == log;
      NoSignals(l.marks, data[..], p);
      OneFlush(Value, l.marks, data[..], p, ch);
      assert data[..][p..p] == [];
      ValueStartMarks(l.marks, p);
      NothingOpen(l.marks, HeaderValueStart, p);
      NothingOpen(l.marks, HeaderAlmostDone, p);
      NothingOpen(l.marks, HeaderFieldStart, p);
      if ch == CR {
        Callback(Value, Some(p), data, p);
        l' := l.(state := HeaderAlmostDone, index := 0, headerState := General);
      } else if ch == LF {
        Callback(Value, Some(p), data, p);
        l' := l.(state := HeaderFieldStart, index := 0);
      } else if ch != ' ' {
        FirstValueFrame(View(l), ch);
        flow, l' := FirstValueByte(ch, l.(marks := l.marks.(headerValue := Some(p))));
      }
    }

    method HeaderValueByte(ch: char, data: array<char>, p: nat, l: Locals) returns (flow: Flow, l': Locals)
      requires p < data.Length && Fits(l.marks, l.state, p)
      requires l.state.HeaderValue?
      requires ValuePhase(l.headerState) && ValueIndex(l.headerState, l.index) && l.index < 256
      modifies this`log, this`flags, this`contentLength
      ensures Did(M.HeaderValueByte(old(View(l)), ch), flow, View(l'), l'.marks, l.marks, BetweenMessages(l.state), data[..], p, old(log), log)
    {
      hide Delivered, SliceFrom, M.ValueByte, M.FirstValueByte, Fits, Remark, ValuePhase, ValueIndex;
      flow, l' := Continue, l;
      assert log + [] == log;
      NoSignals(l.marks, data[..], p);
      OneFlush(Value, l.marks, data[..], p, ch);
      var m := l.marks;
      ValueMarks(m, p);
      NothingOpen(m, HeaderAlmostDone, p);
      NothingOpen(m, HeaderFieldStart, p);
      if ch == CR {
        Callback(Value, m.headerValue, data, p);
        l' := l.(state := HeaderAlmostDone, marks := m.(headerValue := None));
      } else if ch == LF {
        Callback(Value, m.headerValue, data, p);
        l' := EndOfValue(l.(marks := m.(headerValue := None)));
      } else {
        ValueFrame(View(l), ch);
        flow, l' := ValueByte(ch, l);
      }
    }

    method HeaderAlmostDoneByte(ch: char, data: array<char>, p: nat, l: Locals) returns (flow: Flow, l': Locals)
      requires p < data.Length && Fits(l.marks, l.state, p)
      requires l.state.HeaderAlmostDone?
      modifies this`flags
      ensures Did(M.HeaderValueByte(old(View(l)), ch), flow, View(l'), l'.marks, l.marks, BetweenMessages(l.state), data[..], p, old(log), log)
    {
      hide Delivered, M.ValueByte, M.FirstValueByte;
      flow, l' := Continue, l;
      assert log + [] == log;
      NoSignals(l.marks, data[..], p);
      if ch != LF {
        flow := GotoError;
      } else {
        l' := EndOfValue(l);
      }
    }

    // ----- End of the headers -----

    method ShouldKeepAlive() returns (keep: bool)
      ensures forall l :: keep == M.ShouldKeepAlive(View(l))
    {
      if httpMajor > 0 && httpMinor > 0 {
        keep := !flags.close;
      } else {
        keep := flags.keepAlive;
      }
    }

    /** `NEW_MESSAGE`. */
    method NewMessage() returns (s: State)
      ensures forall l :: s == M.NewMessage(View(l))
      ensures s.Dead? || s.StartReq? || s.StartRes?
    {
      hide M.ShouldKeepAlive;
      var keep := ShouldKeepAlive();
      s := if !keep then Dead else if kind == Request then StartReq else StartRes;
    }

    /** The label `headers_almost_done`. */
    method EndOfHeaders(ch: char, data: array<char>, p: nat, l: Locals) returns (flow: Flow, l': Locals)
      requires l.state.HeadersAlmostDone? && l.marks == NO_MARKS
      modifies this`log, this`upgrade
      ensures Did(M.EndOfHeaders(old(View(l)), ch), flow, View(l'), l'.marks, l.marks, BetweenMessages(l.state), data[..], p, old(log), log)
    {
      hide Delivered, Remark, SummaryOf, M.NewMessage, M.ShouldKeepAlive;
      flow, l' := Continue, l;
      if ch != LF { return GotoError, l; }
      if flags.trailing {
        Notices(l.marks, data[..], p, SummaryOf(View(l)));
        Notify(Complete);
        var next := NewMessage();
        assert next == M.NewMessage(View(l));
        l' := l.(state := next);
      } else {
        l' := l.(nread := 0);
        if flags.upgrade || meth == CONNECT { upgrade := true; }
        ghost var q := View(l');
        Notices(l.marks, data[..], p, SummaryOf(q));
        assert old(log) + [HeadersDone(SummaryOf(q))] + [Complete] == old(log) + [HeadersDone(SummaryOf(q)), Complete];
        var summary := Summarise(l');
        Notify(HeadersDone(summary));
        if upgrade {
          Notify(Complete);
          return Return, l';
        }
        if flags.chunked {
          l' := l'.(state := ChunkSizeStart);
        } else if contentLength == 0 {
          Notify(Complete);
          var next := NewMessage();
          assert View(l') == q;
          l' := l'.(state := next);
        } else {
          l' := l'.(state := BodyIdentity);
        }
      }
      NothingOpen(NO_MARKS, l'.state, p);
    }

    /** What `on_headers_complete` can read. */
    method Summarise(l: Locals) returns (s: Summary)
      ensures s == SummaryOf(View(l))
    {
      hide M.ShouldKeepAlive;
      var keep := ShouldKeepAlive();
      assert keep == M.ShouldKeepAlive(View(l));
      s := if kind == Request
           then RequestSummary(meth, httpMajor, httpMinor, keep, contentLength)
           else ResponseSummary(statusCode, httpMajor, httpMinor, keep, contentLength);
    }

    // ----- Chunk framing -----

    method ChunkSizeByte(ch: char, data: array<char>, p: nat, l: Locals) returns (flow: Flow, l': Locals)
      requires l.state.ChunkSizeStart? || l.state.ChunkSize? || l.state.ChunkParameters?
      requires l.marks == NO_MARKS && flags.chunked && (l.state.ChunkSizeStart? ==> l.nread == 1)
      modifies this`contentLength, this`flags
      ensures Did(M.BodyStep(old(View(l)), ch), flow, View(l'), l'.marks, l.marks, BetweenMessages(l.state), data[..], p, log, log)
    {
      hide Delivered, Remark, Unhex, Wrap;
      flow, l' := Continue, l;
      assert log + [] == log;
      NoSignals(l.marks, data[..], p);
      match l.state {
        case ChunkSizeStart =>
          assert l.nread == 1;
          assert flags.chunked;
          var c := Unhex(ch);
          if c == -1 { return GotoError, l; }
          contentLength := c;
          l' := l.(state := ChunkSize);
        case ChunkSize =>
          assert flags.chunked;
          if ch == CR {
            l' := l.(state := ChunkSizeAlmostDone);
          } else {
            var c := Unhex(ch);
            if c == -1 {
              if ch == ';' || ch == ' ' {
                l' := l.(state := ChunkParameters);
              } else {
                return GotoError, l;
              }
            } else {
              contentLength := Wrap(contentLength * 16 + c);
            }
          }
        case ChunkParameters =>
          assert flags.chunked;
          if ch == CR { l' := l.(state := ChunkSizeAlmostDone); }
      }
      NothingOpen(NO_MARKS, l'.state, p);
    }

    method ChunkEndByte(ch: char, data: array<char>, p: nat, l: Locals) returns (flow: Flow, l': Locals)
      requires l.state.ChunkSizeAlmostDone? || l.state.ChunkDataAlmostDone? || l.state.ChunkDataDone?
      requires l.marks == NO_MARKS && flags.chunked
      modifies this`contentLength, this`flags
      ensures Did(M.BodyStep(old(View(l)), ch), flow, View(l'), l'.marks, l.marks, BetweenMessages(l.state), data[..], p, log, log)
    {
      hide Delivered, Remark;
      flow, l' := Continue, l;
      assert log + [] == log;
      NoSignals(l.marks, data[..], p);
      match l.state {
        case ChunkSizeAlmostDone =>
          assert flags.chunked;
          if ch != LF { return GotoError, l; }
          l' := l.(nread := 0);
          if contentLength == 0 {
            flags := flags.(trailing := true);
            l' := l'.(state := HeaderFieldStart);
          } else {
            l' := l'.(state := ChunkData);
          }
        case ChunkDataAlmostDone =>
          assert flags.chunked;
          if ch != CR { return GotoError, l; }
          l' := l.(state := ChunkDataDone);
        case ChunkDataDone =>
          assert flags.chunked;
          if ch != LF { return GotoError, l; }
          l' := l.(state := ChunkSizeStart);
      }
      NothingOpen(NO_MARKS, l'.state, p);
    }

    method ChunkByte(ch: char, data: array<char>, p: nat, l: Locals) returns (flow: Flow, l': Locals)
      requires InBody(l.state) && !l.state.BodyIdentity? && !l.state.BodyIdentityEof? && !l.state.ChunkData?
      requires l.marks == NO_MARKS && flags.chunked && (l.state.ChunkSizeStart? ==> l.nread == 1)
      modifies this`contentLength, this`flags
      ensures Did(M.BodyStep(old(View(l)), ch), flow, View(l'), l'.marks, l.marks, BetweenMessages(l.state), data[..], p, log, log)
    {
      hide M.BodyStep, Did;
      match l.state {
        case ChunkSizeStart | ChunkSize | ChunkParameters => flow, l' := ChunkSizeByte(ch, data, p, l);
        case ChunkSizeAlmostDone | ChunkDataAlmostDone | ChunkDataDone => flow, l' := ChunkEndByte(ch, data, p, l);
      }
    }

    // ----- The switch -----

    /** One byte that is not body data; `q` is the parser before the header counter moved. */
    method SwitchByte(ch: char, data: array<char>, p: nat, l: Locals, ghost q: Parser)
      returns (flow: Flow, l': Locals)
      requires p < data.Length && ch == data[p]
      requires Inv(q) && View(l) == Count(q) && Fits(l.marks, l.state, p)
      requires !l.state.Dead? && !l.state.ChunkData? && !l.state.BodyIdentity?
      modifies this
      ensures Did(FreeStep(q, ch), flow, View(l'), l'.marks, l.marks, BetweenMessages(l.state), data[..], p, old(log), log)
      ensures unchanged(`state, `headerState, `index, `nread)
    {
      hide M.StartByte, M.StatusLineByte, M.UrlByte, M.RequestVersionByte, M.HeaderNameByte, M.HeaderValueByte,
           M.BodyStep, M.EndOfHeaders, Inv, Fits, Did, NamePhase, NameIndex, ValuePhase, ValueIndex, Remark, Delivered;
      HeaderPhases(q);
      if Open(l.state) == [] { ClosedFits(l.marks, l.state, l.state, p, p); }
      if InStart(l.state) {
        flow, l' := StartByte(ch, data, p, l);
      } else if InStatusLine(l.state) {
        flow, l' := StatusLineByte(ch, data, p, l);
      } else if InUrl(l.state) {
        flow, l' := UrlByte(ch, data, p, l);
      } else if InRequestVersion(l.state) {
        flow, l' := RequestVersionByte(ch, data, p, l);
      } else if l.state == HeaderFieldStart {
        if ch == LF {
          BareEnd(Count(q));
          flow, l' := EndOfHeaders(ch, data, p, l.(state := HeadersAlmostDone));
        } else {
          flow, l' := HeaderFieldStartByte(ch, data, p, l);
        }
      } else if l.state == HeaderField {
        flow, l' := HeaderFieldByte(ch, data, p, l);
      } else if l.state == HeaderValueStart {
        flow, l' := HeaderValueStartByte(ch, data, p, l);
      } else if l.state == HeaderValue {
        flow, l' := HeaderValueByte(ch, data, p, l);
      } else if l.state == HeaderAlmostDone {
        flow, l' := HeaderAlmostDoneByte(ch, data, p, l);
      } else if l.state == HeadersAlmostDone {
        flow, l' := EndOfHeaders(ch, data, p, l);
      } else {
        InChunks(q);
        flow, l' := ChunkByte(ch, data, p, l);
      }
    }

    method UrlByte(ch: char, data: array<char>, p: nat, l: Locals) returns (flow: Flow, l': Locals)
      requires p < data.Length && InUrl(l.state) && Fits(l.marks, l.state, p)
      modifies this`log, this`httpMajor, this`httpMinor
      ensures Did(M.UrlByte(old(View(l)), ch), flow, View(l'), l'.marks, l.marks, BetweenMessages(l.state), data[..], p, old(log), log)
    {
      hide M.UrlByte, Fits, Did, Remark, Delivered;
      match l.state {
        case ReqPath => flow, l' := PathByte(ch, data, p, l);
        case ReqQueryStringStart => flow, l' := QueryStartByte(ch, data, p, l);
        case ReqQueryString => flow, l' := QueryByte(ch, data, p, l);
        case ReqFragmentStart => flow, l' := FragmentStartByte(ch, data, p, l);
        case ReqFragment => flow, l' := FragmentByte(ch, data, p, l);
        case ReqHost | ReqPort => flow, l' := HostByte(ch, data, p, l);
        case ReqSpacesBeforeUrl | ReqSchema | ReqSchemaSlash | ReqSchemaSlashSlash =>
          flow, l' := SchemaByte(ch, data, p, l);
      }
    }
  
    // ----- Body bytes in bulk -----

    /** `s_body_identity`: `n` is `to_read`. */
    method IdentityBytes(data: array<char>, p: nat, l: Locals) returns (n: nat, l': Locals)
      requires p < data.Length && l.state.BodyIdentity? && contentLength > 0
      modifies this`log, this`contentLength
      ensures 0 < n <= data.Length - p && n <= old(contentLength)
      ensures l'.marks == l.marks && Open(l'.state) == []
      ensures var r := Feed(old(View(l)), data[p..p + n]);
              r.Consumed? && r.q == View(l') && Mail(log) == Collect(Mail(old(log)), r.events)
      ensures log == old(log) + BodyCallbacks(data[p..p + n], n == old(contentLength))
    {
      hide Feed, M.NewMessage, Receive;
      n := if data.Length - p < contentLength then data.Length - p else contentLength;
      l' := l;
      ghost var q := View(l);
      IdentityRun(q, data[p..p + n], Mail(log));
      Notify(BodyData(data[p..p + n]));
      Collect1(Mail(old(log)), BodyData(data[p..p + n]));
      CollectAppend(NO_MESSAGES, old(log), [BodyData(data[p..p + n])]);
      contentLength := contentLength - n;
      if contentLength == 0 {
        Collect1(Mail(log), Complete);
        CollectAppend(NO_MESSAGES, log, [Complete]);
        Notify(Complete);
        var next := NewMessage();
        assert next == M.NewMessage(View(l));
        l' := l.(state := next);
      }
    }

    /** `s_chunk_data`: `(int64_t) content_length` is not negative here. */
    method ChunkBytes(data: array<char>, p: nat, l: Locals) returns (n: nat, l': Locals)
      requires p < data.Length && l.state.ChunkData? && 0 < contentLength < SIGN_LIMIT && flags.chunked
      modifies this`log, this`contentLength
      ensures 0 < n <= data.Length - p && n <= old(contentLength)
      ensures l'.marks == l.marks && Open(l'.state) == []
      ensures var r := Feed(old(View(l)), data[p..p + n]);
              r.Consumed? && r.q == View(l') && Mail(log) == Collect(Mail(old(log)), r.events)
      ensures log == old(log) + BodyCallbacks(data[p..p + n], false)
    {
      hide Feed, Receive;
      n := if data.Length - p < contentLength then data.Length - p else contentLength;
      l' := l;
      ChunkDataRun(View(l), data[p..p + n], Mail(log));
      Notify(BodyData(data[p..p + n]));
      Collect1(Mail(old(log)), BodyData(data[p..p + n]));
      CollectAppend(NO_MESSAGES, old(log), [BodyData(data[p..p + n])]);
      if n == contentLength { l' := l.(state := ChunkDataAlmostDone); }
      contentLength := contentLength - n;
    }

    // ----- The whole call -----

    /** The parser between calls. */
    ghost function Stored(): Parser
      reads this
    {
      View(Locals(state, headerState, index, nread, NO_MARKS))
    }

    ghost predicate Valid()
      reads this
    {
      Inv(Stored()) && Tidy(state, Mail(log).cur) && Settled(Stored())
    }

    /** `http_parser_init`, on a fresh object or again on a used one. */
    method Init(t: ParserType)
      requires index < 256
      modifies this`kind, this`state, this`nread, this`upgrade, this`flags, this`meth
      ensures Valid() && Stored() == M.Init(old(Stored()), t)
      ensures kind == t && nread == 0 && !upgrade && flags == Flags(false, false, false, false, false) && meth.DELETE?
      ensures if t.Request? then state.StartReq? else if t.Response? then state.StartRes? else state.StartReqOrRes?
    {
      hide Inv, Settled, Plain;
      kind := t;
      state := match t case Request => StartReq case Response => StartRes case Both => StartReqOrRes;
      nread := 0;
      upgrade := false;
      flags := NO_FLAGS;
      meth := DELETE;
      InitSafe(old(Stored()), t);
      InitPlain(old(Stored()), t);
      PlainSettles(Stored());
    }

    /** The end of the stream: an error unless no message is under way. */
    method Eof() returns (n: nat)
      modifies this`log
      ensures n == 0 <==> state.BodyIdentityEof? || state.Dead? || BetweenMessages(state)
      ensures log == old(log) + if state.BodyIdentityEof? then [Complete] else []
    {
      match state {
        case BodyIdentityEof =>
          Notify(Complete);
          n := 0;
        case Dead | StartReqOrRes | StartRes | StartReq => n := 0;
        case _ => n := 1;
      }
    }

    /** The marks of a call that resumes inside a slice. */
    method ResumeMarks() returns (m: Marks)
      ensures Fits(m, state, 0)
    {
      hide Fits, FitsSlice;
      var inUrl :=
        || state == ReqPath || state == ReqSchema || state == ReqSchemaSlash || state == ReqSchemaSlashSlash
        || state == ReqPort || state == ReqQueryStringStart || state == ReqQueryString || state == ReqHost
        || state == ReqFragmentStart || state == ReqFragment;
      m := Marks(
        if state == HeaderField then Some(0) else None,
        if state == HeaderValue then Some(0) else None,
        if state == ReqFragment then Some(0) else None,
        if state == ReqQueryString then Some(0) else None,
        if state == ReqPath then Some(0) else None,
        if inUrl then Some(0) else None);
      MarkedAtStart(m, state);
    }

    /** `CALLBACK_NOCLEAR` for each mark, at the end of the buffer. */
    method FlushMarks(data: array<char>, l: Locals)
      requires Fits(l.marks, l.state, data.Length)
      modifies this`log
      ensures log == old(log) + Pending(l.marks, l.state, data[..], data.Length)
    {
      hide SliceFrom, Pending;
      var m, p := l.marks, data.Length;
      PendingIs(m, l.state, data[..], p);
      if m.headerField.Some? { Callback(Field, m.headerField, data, p); }
      if m.headerValue.Some? { Callback(Value, m.headerValue, data, p); }
      if m.fragment.Some? { Callback(Fragment, m.fragment, data, p); }
      if m.queryString.Some? { Callback(Query, m.queryString, data, p); }
      if m.path.Some? { Callback(Path, m.path, data, p); }
      if m.url.Some? { Callback(Url, m.url, data, p); }
    }
  
    /** `goto error`. */
    method Fail()
      requires index < 256
      modifies this`state
      ensures Valid() && state == Dead
    {
      state := Dead;
    }

    /** One turn of the loop on a byte that is not body data. */
    method NextByte(data: array<char>, p: nat, l: Locals, ghost q0: Parser, ghost es: seq<Event>, ghost x0: Inbox)
      returns (flow: Flow, l': Locals, ghost es': seq<Event>, ghost new': seq<Event>)
      requires p < data.Length && index < 256
      requires Inv(View(l)) && At(q0, data[..], p, View(l), es, l.marks, x0, Mail(log))
      requires !l.state.ChunkData? && !l.state.BodyIdentity? && Settled(View(l))
      modifies this
      ensures flow.Continue? ==>
                && Inv(View(l')) && At(q0, data[..], p + 1, View(l'), es', l'.marks, x0, Mail(log))
                && unchanged(`state, `headerState, `index, `nread)
      ensures !flow.Undefined? ==>
                log == old(log) + new' && TurnTold(old(View(l)), flow, new', if flow.Continue? then View(l') else Stored())
      ensures flow.Continue? && old(kind).Request? ==> TellsUrls(old(View(l)), new', View(l'))
      ensures flow.Return? ==> TellsLast(old(View(l)), new')
      ensures flow.GotoError? ==>
                TellsUrls(old(View(l)), new', old(View(l))) && LacksOpen(q0, data[..], p, x0, Mail(log))
      ensures !flow.Continue? ==>
                Executed(Feed(q0, data[..]), data.Length, p, flow, Stored(), x0, Mail(log))
      ensures flow.GotoError? ==> Valid()
    {
      hide Inv, Feed, Step, FreeStep, Fits, Pending, Collect, Shape, Remark, Tidy, Delivered, SignalEvents, OpenEvents,
           Open, Narrow, Mail, Receive, ByteEvents, NoFlush, NamePhase, NameIndex, ValuePhase, ValueIndex,
           Obeys, HeardAll, Finishes, Plain, TellsUrls, TellsLast, LacksOpen, Executed;
      ghost var q, m, log0 := View(l), l.marks, log;
      assert log == log + [];
      var ch := data[p];
      es', l', new' := es, l, [];
      InChunks(q);
      HeaderPhases(q);
      StepIsFree(q, ch);
      FreeStepSafe(q, ch);
      FreeStepShape(q, ch);
      if ParsingHeader(l.state) { l' := l.(nread := l.nread + 1); }
      if l.state == Dead || (ParsingHeader(l.state) && l'.nread > MAX_HEADER_SIZE) {
        Fail();
        RefusedByte(q0, data[..], p, q, es, m, x0, log0, [], Stored());
        return GotoError, l', es, [];
      }
      flow, l' := SwitchByte(ch, data, p, l', q);
      ghost var o := FreeStep(q, ch);
      StepObeys(q, ch, m, data[..], p);
      if q.kind.Request? { StepTells(q, ch, m, data[..], p); }
      if o.Next? || o.Upgraded? { new' := Delivered(o.signals, m, data[..], p); }
      if flow == Continue {
        AtByte(q0, data[..], p, q, es, m, x0, Mail(log0));
        MailAppend(log0, Delivered(o.signals, m, data[..], p));
        es' := es + ByteEvents(o.q, o.signals, ch);
      } else if flow == GotoError {
        new' := if log == log0 then [] else [Begin];
        Fail();
        RefusedByte(q0, data[..], p, q, es, m, x0, log0, new', Stored());
      } else if flow == Return {
        AtUpgrade(q0, data[..], p, q, es, m, x0, log0, log);
        UpgradeTells(q, ch, m, data[..], p);
        UpgradeRun(p, Feed(q0, data[..]).events, data.Length, Stored(), x0);
      } else {
        AtStop(q0, data[..], p, q, es);
        UndefinedRun(Feed(q0, data[..]), data.Length, p, Stored(), x0, Mail(log));
      }
    }
  
    /** One turn of the loop on body data: `p` jumps over the bytes that are delivered. */
    method BodyRun(data: array<char>, p: nat, l: Locals, ghost q0: Parser, ghost es: seq<Event>, ghost x0: Inbox)
      returns (p': nat, l': Locals, ghost es': seq<Event>, ghost new': seq<Event>)
      requires p < data.Length
      requires Inv(View(l)) && At(q0, data[..], p, View(l), es, l.marks, x0, Mail(log))
      requires l.state.BodyIdentity? || (l.state.ChunkData? && contentLength < SIGN_LIMIT)
      requires Settled(View(l))
      modifies this`log, this`contentLength
      ensures p < p' <= data.Length
      ensures Inv(View(l')) && At(q0, data[..], p', View(l'), es', l'.marks, x0, Mail(log))
      ensures log == old(log) + new' && TurnTold(old(View(l)), Continue, new', View(l'))
      ensures TellsUrls(old(View(l)), new', View(l'))
    {
      hide Inv, Feed, Step, Fits, Pending, Collect, Open, Mail, Receive, TurnTold, Settled, At, M.NewMessage, TellsUrls,
           BodyCallbacks;
      ghost var q, x := View(l), Mail(log);
      InChunks(q);
      NoMarksInBodies(q, data[p]);
      var toRead;
      if l.state == BodyIdentity {
        toRead, l' := IdentityBytes(data, p, l);
        IdentityRun(q, data[p..p + toRead], x);
      } else {
        toRead, l' := ChunkBytes(data, p, l);
        ChunkDataRun(q, data[p..p + toRead], x);
      }
      assert data[..][p..p + toRead] == data[p..p + toRead];
      AtRun(q0, data[..], p, toRead, q, es, l.marks, x0, x);
      FeedSafe(q, data[p..p + toRead]);
      es' := es + Feed(q, data[p..p + toRead]).events;
      BodyTurn(q, data[p..p + toRead], View(l'));
      BodyTells(q, data[p..p + toRead], View(l'));
      new' := BodyCallbacks(data[p..p + toRead], q.state.BodyIdentity? && toRead == q.contentLength);
      p' := p + toRead;
    }

    /** `http_parser_execute`. */
    method Execute(data: array<char>) returns (n: nat, flow: Flow)
      requires Valid()
      modifies this
      ensures data.Length == 0 ==>
                && flow.Continue? && Stored() == old(Stored()) && log == old(log)
                && (n == 0 <==> state.Dead? || BetweenMessages(state))
      ensures data.Length > 0 ==>
                Executed(Feed(old(Stored()), data[..]), data.Length, n, flow, Stored(), old(Mail(log)), Mail(log))
      ensures flow.Continue? || flow.GotoError? ==> Valid()
      ensures !flow.Undefined? ==> old(log) <= log && Told(old(Stored()), flow, log[|old(log)|..], Stored())
      ensures data.Length > 0 && flow.GotoError? ==>
                LacksOpen(old(Stored()), data[..], n, old(Mail(log)), Mail(log))
      ensures data.Length > 0 && old(kind).Request? && !flow.Undefined? ==>
                UrlsTold(old(Stored()), data[..], n, flow, log[|old(log)|..], Stored())
    {
      hide Inv, Feed, Step, FreeStep, Fits, Pending, Collect, Shape, Remark, Tidy, Delivered, SignalEvents, OpenEvents,
           Open, Mail, Receive, ByteEvents, Told, TurnTold, Settled, Executed, Narrow, TellsUrls, TellsAll, TellsLast,
           LacksOpen, InTarget, UrlsTold;
      flow := Continue;
      ToldNothing(Stored());
      TellsNothing(Stored());
      HeaderPhases(Stored());
      if data.Length == 0 {
        NeverEof(Stored());
        assert log + [] == log && log[|log|..] == [];
        n := Eof();
        return;
      }
      ghost var q0, x0, es := Stored(), Mail(log), [];
      ghost var log0, told := log, [];
      var m := ResumeMarks();
      var l := Locals(state, headerState, index, nread, m);
      var p := 0;
      AtStart(q0, data[..], m, x0);
      while p != data.Length
        invariant p <= data.Length && index < 256 && flow.Continue?
        invariant Inv(View(l)) && At(q0, data[..], p, View(l), es, l.marks, x0, Mail(log))
        invariant log == log0 + told && Told(q0, Continue, told, View(l)) && Settled(View(l))
        invariant q0.kind.Request? ==> kind.Request? && TellsUrls(q0, told, View(l))
        decreases data.Length - p
      {
        ghost var q, news := View(l), [];
        if l.state == BodyIdentity || (l.state == ChunkData && contentLength < SIGN_LIMIT) {
          p, l, es, news := BodyRun(data, p, l, q0, es, x0);
          ToldTurn(q0, told, q, Continue, news, View(l));
          if q0.kind.Request? { TellsThen(q0, told, q, news, View(l)); }
        } else if l.state == ChunkData {
          InChunks(View(l));
          NoMarksInBodies(View(l), data[p]);
          AtStop(q0, data[..], p, View(l), es);
          UndefinedRun(Feed(q0, data[..]), data.Length, p, Stored(), x0, Mail(log));
          return p, Undefined;
        } else {
          var l';
          flow, l', es, news := NextByte(data, p, l, q0, es, x0);
          if flow == Undefined { return p, flow; }
          ToldTurn(q0, told, q, flow, news, if flow.Continue? then View(l') else Stored());
          if flow != Continue {
            LogIs(log0, told, news);
            if q0.kind.Request? { UrlsStopped(q0, data[..], p, q, told, news, flow, Stored()); }
            return p, flow;
          }
          p, l := p + 1, l';
          if q0.kind.Request? { KindKept(q, news, View(l)); TellsThen(q0, told, q, news, View(l)); }
        }
        LogIs(log0, told, news);
        told := told + news;
      }
      ghost var q := View(l);
      ghost var news := Finish(data, l, q0, es, x0);
      ToldTurn(q0, told, q, Continue, news, Stored());
      if q0.kind.Request? { UrlsAtEnd(q0, data[..], q, told, news, Stored()); }
      LogIs(log0, told, news);
      ConsumedRun(q, es, data.Length, x0);
      n := data.Length;
    }

    /** After the loop: flush the marks and store the locals, two of them in 8 bits. */
    method Finish(data: array<char>, l: Locals, ghost q0: Parser, ghost es: seq<Event>, ghost x0: Inbox)
      returns (ghost new': seq<Event>)
      requires data.Length > 0 && Inv(View(l))
      requires At(q0, data[..], data.Length, View(l), es, l.marks, x0, Mail(log))
      requires Settled(View(l))
      modifies this`log, this`state, this`headerState, this`index, this`nread
      ensures Feed(q0, data[..]) == Consumed(old(View(l)), es)
      ensures Stored() == Narrow(old(View(l))) && Mail(log) == Collect(x0, es)
      ensures Valid()
      ensures log == old(log) + new' && TurnTold(old(View(l)), Continue, new', Stored())
      ensures state == l.state && (!InTarget(l.state) ==> TellsUrls(old(View(l)), new', Stored()))
      ensures TellsAll(old(View(l)), new', Stored())
    {
      hide Inv, Feed, Step, Fits, Pending, Collect, Tidy, Mail, Obeys, Settled, TellsUrls, TellsAll, InTarget;
      ghost var q := View(l);
      PendingObeys(q, l.marks, data[..], data.Length);
      new' := Pending(l.marks, q.state, data[..], data.Length);
      NarrowObeys(q, new', q);
      PendingTellsAll(q, l.marks, data[..], data.Length);
      if !InTarget(q.state) {
        PendingTells(q, l.marks, data[..], data.Length);
        NarrowTells(q, new', q);
      }
      AtEnd(q0, data[..], q, es, l.marks, x0, log);
      NarrowSafe(q);
      AtFits(q0, data[..], q, es, l.marks, x0, Mail(log));
      FlushMarks(data, l);
      state, headerState, index, nread := l.state, l.headerState, l.index % 256, l.nread % 256;
    }
  }

  ghost function Contents(buffers: seq<array<char>>): (r: seq<string>)
    reads buffers
    ensures |r| == |buffers|
  {
    seq(|buffers|, i requires 0 <= i < |buffers| reads buffers => buffers[i][..])
  }

  /** An application that feeds its buffers as they arrive, until one is not consumed: it
      gets what the calls give, and `n` is the place in all the bytes.  If one call on all
      the bytes consumes them, the calls do, and leave the same stored parser and the same
      messages. */
  method FeedBuffers(parser: HttpParser, buffers: seq<array<char>>) returns (n: nat, flow: Flow)
    requires parser.Valid() && buffers != []
    requires forall i :: 0 <= i < |buffers| ==> buffers[i].Length > 0
    modifies parser
    ensures Executed(Calls(old(parser.Stored()), Contents(buffers)), |Concat(Contents(buffers))|, n, flow,
                     parser.Stored(), old(Mail(parser.log)), Mail(parser.log))
    ensures flow.Continue? || flow.GotoError? ==> parser.Valid()
    ensures !flow.Undefined? ==>
              && old(parser.log) <= parser.log
              && Told(old(parser.Stored()), flow, parser.log[|old(parser.log)|..], parser.Stored())
    ensures !flow.Undefined? && old(AllDecomposed(parser.state, Mail(parser.log))) ==>
              if flow.Continue? then AllDecomposed(parser.state, Mail(parser.log)) else DoneDecomposed(Mail(parser.log))
    ensures var whole := Call(old(parser.Stored()), Concat(Contents(buffers)));
            whole.Consumed? ==>
              && flow.Continue? && parser.Stored() == whole.q
              && Mail(parser.log) == Collect(old(Mail(parser.log)), whole.events)
  {
    hide Inv, Feed, Collect, Narrow, Mail, Tidy, Call, Told, Settled, AllDecomposed, DoneDecomposed, Executed, Concat;
    ghost var log0, told := parser.log, [];
    ToldNothing(parser.Stored());
    ghost var q0, x0, pieces := parser.Stored(), Mail(parser.log), Contents(buffers);
    ghost var es: seq<Event> := [];
    CollectNone(x0);
    ConcatNone();
    n := 0;
    for i := 0 to |buffers|
      invariant parser.Valid() && pieces == Contents(buffers)
      invariant Calls(q0, pieces[..i]) == Consumed(parser.Stored(), es) && n == |Concat(pieces[..i])|
      invariant Mail(parser.log) == Collect(x0, es)
      invariant parser.log == log0 + told && Told(q0, Continue, told, parser.Stored())
    {
      ghost var q, logged := parser.Stored(), parser.log;
      var at;
      at, flow := parser.Execute(buffers[i]);
      if flow != Continue {
        NotConsumed(q0, pieces, i, q, es, at, flow, parser.Stored(), x0, Mail(parser.log));
        n := n + at;
        WholeCalls(q0, pieces, n, flow, parser.Stored(), x0, Mail(parser.log));
        if flow != Undefined {
          ghost var news := parser.log[|logged|..];
          ToldCall(q0, told, q, flow, news, parser.Stored());
          LogIs(log0, told, news);
          assert parser.log[|log0|..] == told + news;
          CallsDone(q0, x0, pieces, n, flow, parser.Stored(), Mail(parser.log));
        }
        return;
      }
      OneMore(q0, pieces, i, q, es, at, parser.Stored(), x0, Mail(parser.log));
      n := n + at;
      ghost var news := parser.log[|logged|..];
      es := es + Feed(q, pieces[i]).events;
      ToldCall(q0, told, q, Continue, news, parser.Stored());
      LogIs(log0, told, news);
      told := told + news;
    }
    assert parser.log[|log0|..] == told;
    assert pieces[..|buffers|] == pieces;
    flow := Continue;
    AllConsumed(q0, pieces, n, parser.Stored(), es, x0, Mail(parser.log));
    WholeCalls(q0, pieces, n, flow, parser.Stored(), x0, Mail(parser.log));
    CallsDone(q0, x0, pieces, n, flow, parser.Stored(), Mail(parser.log));
  }

  lemma {:induction false} ConcatSnoc(pieces: seq<string>, next: string)
    ensures Concat(pieces + [next]) == Concat(pieces) + next
    decreases |pieces|
  {
    if pieces == [] {
      assert [] + [next] == [next] && [next][1..] == [] && next + [] == next;
    } else {
      assert (pieces + [next])[1..] == pieces[1..] + [next];
      ConcatSnoc(pieces[1..], next);
    }
  }

  /** A call that consumes its buffer, after calls that did. */
  lemma OneMore(q0: Parser, pieces: seq<string>, i: nat, q: Parser, es: seq<Event>, at: nat, stored: Parser,
                x0: Inbox, x': Inbox)
    requires i < |pieces| && Calls(q0, pieces[..i]) == Consumed(q, es)
    requires Executed(Feed(q, pieces[i]), |pieces[i]|, at, Continue, stored, Collect(x0, es), x')
    ensures var es' := es + Feed(q, pieces[i]).events;
            Calls(q0, pieces[..i + 1]) == Consumed(stored, es') && x' == Collect(x0, es')
    ensures |Concat(pieces[..i])| + at == |Concat(pieces[..i + 1])|
  {
    hide Feed, Collect, Narrow, Concat, Calls;
    assert pieces[..i + 1] == pieces[..i] + [pieces[i]];
    CallsSnoc(q0, pieces[..i], pieces[i]);
    ConcatSnoc(pieces[..i], pieces[i]);
    CollectAppend(x0, es, Feed(q, pieces[i]).events);
  }

  /** A call that does not consume its buffer is the last. */
  lemma NotConsumed(q0: Parser, pieces: seq<string>, i: nat, q: Parser, es: seq<Event>, at: nat, flow: Flow,
                    stored: Parser, x0: Inbox, x': Inbox)
    requires i < |pieces| && Calls(q0, pieces[..i]) == Consumed(q, es) && !flow.Continue?
    requires Executed(Feed(q, pieces[i]), |pieces[i]|, at, flow, stored, Collect(x0, es), x')
    ensures Executed(Calls(q0, pieces), |Concat(pieces)|, |Concat(pieces[..i])| + at, flow, stored, x0, x')
  {
    hide Feed, Collect, Narrow, Concat, Calls;
    assert pieces[..i + 1] == pieces[..i] + [pieces[i]];
    CallsSnoc(q0, pieces[..i], pieces[i]);
    CallsStop(q0, pieces, i + 1);
    CollectAppend(x0, es, Feed(q, pieces[i]).events);
  }

  /** One call on all the bytes. */
  lemma WholeCalls(q0: Parser, pieces: seq<string>, n: nat, flow: Flow, stored: Parser, x0: Inbox, x': Inbox)
    requires Inv(q0) && pieces != [] && forall i :: 0 <= i < |pieces| ==> pieces[i] != []
    requires Executed(Calls(q0, pieces), |Concat(pieces)|, n, flow, stored, x0, x')
    ensures var whole := Call(q0, Concat(pieces));
            whole.Consumed? ==> flow.Continue? && stored == whole.q && x' == Collect(x0, whole.events)
  {
    hide Inv, Feed, Collect, Concat, Calls, Narrow, Call;
    if Call(q0, Concat(pieces)).Consumed? {
      SplitMany(q0, pieces);
      CallsNarrow(q0, pieces);
    }
  }

  lemma AllConsumed(q0: Parser, pieces: seq<string>, n: nat, stored: Parser, es: seq<Event>, x0: Inbox, x': Inbox)
    requires Calls(q0, pieces) == Consumed(stored, es) && x' == Collect(x0, es) && n == |Concat(pieces)|
    requires pieces != []
    ensures Executed(Calls(q0, pieces), n, n, Continue, stored, x0, x')
  {
    hide Collect, Call, Concat;
    CallsNarrow(q0, pieces);
  }

  /** A parser that calls have left is stored. */
  lemma {:induction false} CallsNarrow(q: Parser, pieces: seq<string>)
    requires pieces != [] && Calls(q, pieces).Consumed?
    ensures Narrow(Calls(q, pieces).q) == Calls(q, pieces).q
    decreases |pieces|
  {
    hide Feed;
    if |pieces| == 1 {
      assert pieces[1..] == [];
    } else {
      CallsNarrow(Call(q, pieces[0]).q, pieces[1..]);
    }
  }

  /** The URLs of the messages that calls have finished. */
  lemma CallsDone(q0: Parser, x0: Inbox, pieces: seq<string>, n: nat, flow: Flow, stored: Parser, x': Inbox)
    requires Inv(q0) && Executed(Calls(q0, pieces), |Concat(pieces)|, n, flow, stored, x0, x') && !flow.Undefined?
    ensures AllDecomposed(q0.state, x0) ==>
              if flow.Continue? then AllDecomposed(stored.state, x') else DoneDecomposed(x')
  {
    hide Inv, Collect, Calls, AllDecomposed, Decomposed, Concat;
    if AllDecomposed(q0.state, x0) { CallsDecomposed(q0, x0, pieces); }
  }
}
