/** The steps of the proof that one call delivers what the machine says: how the
    loop invariant of `http_parser_execute` moves over a byte, over a run of body
    bytes, and at the ends of the buffer. */
module Delivery {
  import opened Syntax
  import opened Machine
  import opened Messages
  import opened Marks
  import opened Frames

  /** A header callback in progress is the last thing the application has seen. */
  predicate Tidy(s: State, m: Message) {
    && (s.HeaderField? ==> m.lastIsField && |m.headers| > 0)
    && (s.HeaderValue? ==> !m.lastIsField || |m.headers| == 0)
  }

  /** A call that starts inside a slice marks its first byte: nothing is pending yet. */
  lemma NothingPending(m: Marks, s: State, data: string, x: Inbox)
    requires Fits(m, s, 0) && Tidy(s, x.cur)
    ensures Collect(x, Pending(m, s, data, 0)) == x
  {
    hide Pending;
    AtMostTwo(s);
    PendingIs(m, s, data, 0);
    if |Open(s)| > 0 {
      var k := Open(s)[0];
      OpenMarks(m, s, 0, k);
      assert SliceFrom(MarkOf(m, k), data, 0) == [];
      NoBytes(x.cur, k, s);
      Collect1(x, Data(k, []));
      OpenMarks(m, s, 0, Url);
      assert SliceFrom(MarkOf(m, Url), data, 0) == [] || |Open(s)| == 1;
      assert x.cur.url + [] == x.cur.url;
      Collect2(x, Data(k, []), Data(Url, []));
    }
  }

  lemma NoBytes(m: Message, k: Slice, s: State)
    requires Tidy(s, m) && k in Open(s)
    ensures AddData(m, k, []) == m
  {
    assert m.url + [] == m.url && m.path + [] == m.path && m.query + [] == m.query && m.fragment + [] == m.fragment;
    var n := |m.headers|;
    if n > 0 {
      assert m.headers[n - 1].name + [] == m.headers[n - 1].name;
      assert m.headers[n - 1].value + [] == m.headers[n - 1].value;
      assert m.headers[n - 1 := m.headers[n - 1]] == m.headers;
    }
  }

  /** After any byte the application has seen it, so its inbox is tidy. */
  lemma StepTidy(q: Parser, signals: seq<Signal>, ch: char, x: Inbox)
    ensures Tidy(q.state, Collect(x, ByteEvents(q, signals, ch)).cur)
  {
    hide SignalEvents;
    CollectAppend(x, SignalEvents(signals, ch), OpenEvents(Open(q.state), ch));
    OpenEventsAre(Open(q.state), ch);
    var y := Collect(x, SignalEvents(signals, ch));
    Collect1(y, Data(Field, [ch]));
    Collect1(y, Data(Value, [ch]));
  }

  lemma {:induction false} FeedTidy(q: Parser, s: string, x: Inbox)
    requires Feed(q, s).Consumed? && s != []
    ensures Tidy(Feed(q, s).q.state, Collect(x, Feed(q, s).events).cur)
    decreases |s|
  {
    hide Step, ByteEvents, Tidy;
    var o := Step(q, s[0]);
    var es := ByteEvents(o.q, o.signals, s[0]);
    var r := Feed(o.q, s[1..]);
    StepTidy(o.q, o.signals, s[0], x);
    CollectAppend(x, es, r.events);
    if s[1..] == [] {
      assert es + [] == es;
    } else {
      FeedTidy(o.q, s[1..], Collect(x, es));
    }
  }

  // ----- Moving the loop invariant -----

  /** What the loop has established at index `p`, before the byte there is read. */
  predicate At(q0: Parser, data: string, p: nat, q: Parser, es: seq<Event>, m: Marks, x0: Inbox, x: Inbox) {
    && p <= |data|
    && Feed(q0, data[..p]) == Consumed(q, es)
    && Fits(m, q.state, p)
    && Collect(x, Pending(m, q.state, data, p)) == Collect(x0, es)
  }

  lemma RemarkFits(m: Marks, s: State, s': State, p: nat)
    requires Fits(m, s, p)
    ensures Fits(Remark(m, s', p), s', p + 1)
  {
    hide IsOpen;
  }

  lemma AtByte(q0: Parser, data: string, p: nat, q: Parser, es: seq<Event>, m: Marks, x0: Inbox, x: Inbox)
    requires p < |data| && At(q0, data, p, q, es, m, x0, x)
    requires var o := Step(q, data[p]); o.Next? && Shape(Open(q.state), o.signals, Open(o.q.state))
    ensures var o := Step(q, data[p]);
            At(q0, data, p + 1, o.q, es + ByteEvents(o.q, o.signals, data[p]), Remark(m, o.q.state, p), x0,
               Collect(x, Delivered(o.signals, m, data, p)))
  {
    hide Step, Feed, Fits, Remark, Shape, Open, Pending, Delivered, SignalEvents, OpenEvents, Collect;
    var o := Step(q, data[p]);
    var ev := ByteEvents(o.q, o.signals, data[p]);
    FeedSnoc(q0, data, p);
    RemarkFits(m, q.state, o.q.state, p);
    StepDelivers(x, q.state, o.signals, o.q.state, m, data, p);
    CollectAppend(x0, es, ev);
  }

  /** A run of body bytes, during which nothing is marked. */
  lemma AtRun(q0: Parser, data: string, p: nat, n: nat, q: Parser, es: seq<Event>, m: Marks, x0: Inbox, x: Inbox)
    requires p + n <= |data| && At(q0, data, p, q, es, m, x0, x)
    requires Feed(q, data[p..p + n]).Consumed?
    requires Open(q.state) == [] && Open(Feed(q, data[p..p + n]).q.state) == []
    ensures var r := Feed(q, data[p..p + n]);
            At(q0, data, p + n, r.q, es + r.events, m, x0, Collect(x, r.events))
  {
    hide Step, Feed, Open, SliceFrom;
    var r := Feed(q, data[p..p + n]);
    assert data[..p + n] == data[..p] + data[p..p + n];
    FeedAppend(q0, data[..p], data[p..p + n]);
    PendingIs(m, q.state, data, p);
    PendingIs(m, r.q.state, data, p + n);
    CollectAppend(x0, es, r.events);
    ClosedFits(m, q.state, r.q.state, p, p + n);
  }

  lemma ClosedFits(m: Marks, s: State, s': State, p: nat, p': nat)
    requires Fits(m, s, p) && Open(s) == [] && Open(s') == []
    ensures Fits(m, s', p') && m == NO_MARKS
  {
    hide Open;
    forall k ensures MarkOf(m, k).None? && !IsOpen(s', k) {
      OpenMarks(m, s, p, k);
      OpenStates(s', k);
    }
    assert MarkOf(m, Url).None? && MarkOf(m, Path).None? && MarkOf(m, Query).None?;
    assert MarkOf(m, Fragment).None? && MarkOf(m, Field).None? && MarkOf(m, Value).None?;
  }

  /** The loop is left at `p`: the rest of the buffer does not matter. */
  lemma AtStop(q0: Parser, data: string, p: nat, q: Parser, es: seq<Event>)
    requires p < |data| && Feed(q0, data[..p]) == Consumed(q, es)
    requires OneByte(Step(q, data[p]), data[p]).Stopped?
    ensures var one := OneByte(Step(q, data[p]), data[p]);
            Feed(q0, data) == Stopped(p + one.at, es + one.events, one.reason)
  {
    hide Step, OneByte;
    var one := OneByte(Step(q, data[p]), data[p]);
    FeedSnoc(q0, data, p);
    assert data == data[..p + 1] + data[p + 1..];
    FeedAppend(q0, data[..p + 1], data[p + 1..]);
  }

  /** Slices that are pending when a byte is refused belong to the unfinished message. */
  lemma PendingIsCurrent(x: Inbox, m: Marks, s: State, data: string, p: nat)
    ensures Collect(x, Pending(m, s, data, p)).done == x.done
  {
    hide Open, SliceFrom, Pending, AddData;
    AtMostTwo(s);
    PendingIs(m, s, data, p);
    if |Open(s)| == 1 {
      Collect1(x, Pending(m, s, data, p)[0]);
    } else if |Open(s)| == 2 {
      Collect2(x, Pending(m, s, data, p)[0], Pending(m, s, data, p)[1]);
    }
  }

  /** The messages an application has collected from a log of callbacks. */
  function Mail(log: seq<Event>): Inbox { Collect(NO_MESSAGES, log) }

  lemma MailAppend(log: seq<Event>, es: seq<Event>)
    ensures Mail(log + es) == Collect(Mail(log), es)
  {
    CollectAppend(NO_MESSAGES, log, es);
  }

  /** The two checks that come before the machine's own. */
  lemma StepIsFree(q: Parser, ch: char)
    ensures q.state.Dead? || (ParsingHeader(q.state) && q.nread + 1 > MAX_HEADER_SIZE) ==> Step(q, ch) == Error
    ensures !q.state.Dead? && !(ParsingHeader(q.state) && q.nread + 1 > MAX_HEADER_SIZE)
            ==> Step(q, ch) == FreeStep(q, ch)
  {
    hide StartByte, StatusLineByte, UrlByte, RequestVersionByte, HeaderNameByte, HeaderValueByte, BodyStep, EndOfHeaders;
  }

  lemma AtStart(q: Parser, data: string, m: Marks, x: Inbox)
    requires Fits(m, q.state, 0) && Tidy(q.state, x.cur)
    ensures At(q, data, 0, q, [], m, x, x)
  {
    hide Fits, Tidy, Pending;
    NothingPending(m, q.state, data, x);
    assert data[..0] == [];
    assert Feed(q, []) == Consumed(q, []);
  }

  lemma AtError(q0: Parser, data: string, p: nat, q: Parser, es: seq<Event>, m: Marks, x0: Inbox,
                log: seq<Event>, log': seq<Event>)
    requires p < |data| && At(q0, data, p, q, es, m, x0, Mail(log))
    requires Step(q, data[p]) == Error && (log' == log || log' == log + [Begin])
    ensures Feed(q0, data) == Stopped(p, es, BadByte)
    ensures Mail(log').done == Collect(x0, es).done
  {
    hide Step, Feed, Fits, Pending;
    AtStop(q0, data, p, q, es);
    assert es + [] == es;
    PendingIsCurrent(Mail(log), m, q.state, data, p);
    MailAppend(log, [Begin]);
    Collect1(Mail(log), Begin);
  }

  /** A byte was refused at `n`: the application lacks the bytes of the slices that are open
      there, and nothing else; a byte that cannot start a message may have begun one. */
  ghost predicate LacksOpen(q0: Parser, data: string, n: nat, x0: Inbox, x: Inbox) {
    && n < |data|
    && var r := Feed(q0, data[..n]);
       && r.Consumed?
       && (|| (exists m :: Fits(m, r.q.state, n) && Collect(x, Pending(m, r.q.state, data, n)) == Collect(x0, r.events))
           || (BetweenMessages(r.q.state) && x == Receive(Collect(x0, r.events), Begin)))
  }

  lemma Lacks(q0: Parser, data: string, p: nat, q: Parser, es: seq<Event>, m: Marks, x0: Inbox,
              log: seq<Event>, log': seq<Event>)
    requires p < |data| && At(q0, data, p, q, es, m, x0, Mail(log))
    requires log' == log || (log' == log + [Begin] && BetweenMessages(q.state))
    ensures LacksOpen(q0, data, p, x0, Mail(log'))
  {
    hide Feed, Fits, Pending;
    if log' != log {
      PendingIs(m, q.state, data, p);
      MailAppend(log, [Begin]);
      Collect1(Mail(log), Begin);
      CollectNone(Mail(log));
    }
  }

  lemma AtUpgrade(q0: Parser, data: string, p: nat, q: Parser, es: seq<Event>, m: Marks, x0: Inbox,
                  log: seq<Event>, log': seq<Event>)
    requires p < |data| && At(q0, data, p, q, es, m, x0, Mail(log))
    requires var o := Step(q, data[p]);
             && o.Upgraded? && NoFlush(o.signals) && Open(q.state) == []
             && log' == log + Delivered(o.signals, m, data, p)
    ensures var r := Feed(q0, data);
            r.Stopped? && r.at == p && r.reason.OtherProtocol? && Mail(log') == Collect(x0, r.events)
  {
    hide Step, Feed, Fits, Open, NoFlush;
    AtStop(q0, data, p, q, es);
    var o := Step(q, data[p]);
    SameWithoutFlush(o.signals, m, data, p, data[p]);
    PendingIs(m, q.state, data, p);
    MailAppend(log, Delivered(o.signals, m, data, p));
    CollectAppend(x0, es, SignalEvents(o.signals, data[p]));
  }

  lemma NoMarksInBodies(q: Parser, ch: char)
    requires q.state.BodyIdentity? || q.state.ChunkData?
    ensures Open(q.state) == []
    ensures q.state.ChunkData? && q.flags.chunked && q.contentLength >= SIGN_LIMIT ==>
              OneByte(Step(q, ch), ch) == Stopped(0, [], UndefinedStep)
  {
  }

  /** The end of the buffer: the flushed slices complete what the application has seen. */
  lemma AtEnd(q0: Parser, data: string, q: Parser, es: seq<Event>, m: Marks, x0: Inbox, log: seq<Event>)
    requires data != [] && At(q0, data, |data|, q, es, m, x0, Mail(log))
    ensures Feed(q0, data) == Consumed(q, es)
    ensures Mail(log + Pending(m, q.state, data, |data|)) == Collect(x0, es)
    ensures Tidy(q.state, Collect(x0, es).cur)
  {
    hide Step, Feed, Fits, Pending, Tidy;
    assert data[..|data|] == data;
    MailAppend(log, Pending(m, q.state, data, |data|));
    FeedTidy(q0, data, x0);
  }

  lemma AtFits(q0: Parser, data: string, q: Parser, es: seq<Event>, m: Marks, x0: Inbox, x: Inbox)
    requires At(q0, data, |data|, q, es, m, x0, x)
    ensures Fits(m, q.state, |data|)
  {
  }
}
