/** Runs of the machine over a buffer, and the messages an application collects
    from the callbacks. */
module Messages {
  import opened Syntax
  import opened Machine

  // ----- Callbacks -----

  datatype Event =
    | Begin
    | Data(slice: Slice, bytes: string)
    | HeadersDone(summary: Summary)
    | BodyData(bytes: string)
    | Complete

  /** The slices that are open in a state, in the order they are flushed when a
      buffer ends: exactly the marks the C code holds there. */
  function Open(s: State): seq<Slice> {
    match s
    case ReqSchema | ReqSchemaSlash | ReqSchemaSlashSlash | ReqHost | ReqPort
       | ReqQueryStringStart | ReqFragmentStart => [Url]
    case ReqPath => [Path, Url]
    case ReqQueryString => [Query, Url]
    case ReqFragment => [Fragment, Url]
    case HeaderField => [Field]
    case HeaderValue => [Value]
    case _ => []
  }

  /** A callback with an empty slice for a flush: the bytes have been counted one by one. */
  function SignalEvents(signals: seq<Signal>, ch: char): seq<Event> {
    if signals == [] then []
    else [match signals[0]
          case MessageBegin => Begin
          case Flush(k) => Data(k, [])
          case HeadersComplete(summary) => HeadersDone(summary)
          case BodyByte => BodyData([ch])
          case MessageComplete => Complete] + SignalEvents(signals[1..], ch)
  }

  /** The byte belongs to each slice that is open after it. */
  function OpenEvents(open: seq<Slice>, ch: char): seq<Event> {
    seq(|open|, i requires 0 <= i < |open| => Data(open[i], [ch]))
  }

  /** What one byte means to the application, one byte at a time. */
  function ByteEvents(q: Parser, signals: seq<Signal>, ch: char): seq<Event> {
    SignalEvents(signals, ch) + OpenEvents(Open(q.state), ch)
  }

  // ----- Collecting messages, as the callbacks of the parser's own tests do -----

  datatype Header = Header(name: string, value: string)

  datatype Message = Message(
    began: bool,
    url: string, path: string, query: string, fragment: string,
    headers: seq<Header>,
    lastIsField: bool,
    summary: seq<Summary>,
    body: string)

  const EMPTY := Message(false, "", "", "", "", [], false, [], "")

  /** The finished messages, and the one being received. */
  datatype Inbox = Inbox(done: seq<Message>, cur: Message)

  const NO_MESSAGES := Inbox([], EMPTY)

  function AddField(m: Message, bytes: string): Message {
    var n := |m.headers|;
    if m.lastIsField && n > 0
    then m.(headers := m.headers[n - 1 := m.headers[n - 1].(name := m.headers[n - 1].name + bytes)])
    else m.(headers := m.headers + [Header(bytes, "")], lastIsField := true)
  }

  function AddValue(m: Message, bytes: string): Message {
    var n := |m.headers|;
    if n == 0 then m
    else m.(headers := m.headers[n - 1 := m.headers[n - 1].(value := m.headers[n - 1].value + bytes)],
            lastIsField := false)
  }

  function AddData(m: Message, k: Slice, bytes: string): Message {
    match k
    case Url => m.(url := m.url + bytes)
    case Path => m.(path := m.path + bytes)
    case Query => m.(query := m.query + bytes)
    case Fragment => m.(fragment := m.fragment + bytes)
    case Field => AddField(m, bytes)
    case Value => AddValue(m, bytes)
  }

  function Receive(x: Inbox, e: Event): Inbox {
    match e
    case Begin => x.(cur := x.cur.(began := true))
    case Data(k, bytes) => x.(cur := AddData(x.cur, k, bytes))
    case HeadersDone(summary) => x.(cur := x.cur.(summary := x.cur.summary + [summary]))
    case BodyData(bytes) => x.(cur := x.cur.(body := x.cur.body + bytes))
    case Complete => Inbox(x.done + [x.cur], EMPTY)
  }

  function Collect(x: Inbox, es: seq<Event>): Inbox
    decreases |es|
  {
    if es == [] then x else Collect(Receive(x, es[0]), es[1..])
  }

  lemma {:induction false} CollectAppend(x: Inbox, a: seq<Event>, b: seq<Event>)
    ensures Collect(x, a + b) == Collect(Collect(x, a), b)
    decreases |a|
  {
    if a == [] {
      assert a + b == b;
    } else {
      assert (a + b)[0] == a[0] && (a + b)[1..] == a[1..] + b;
      CollectAppend(Receive(x, a[0]), a[1..], b);
    }
  }

  lemma CollectNone(x: Inbox)
    ensures Collect(x, []) == x
  {
  }

  // ----- Runs -----

  datatype Reason = BadByte | OtherProtocol | AssertionFails | UndefinedStep

  /** A buffer is consumed whole, or the loop is left at the byte with index `at`. */
  datatype Run =
    | Consumed(q: Parser, events: seq<Event>)
    | Stopped(at: nat, events: seq<Event>, reason: Reason)

  function After(at: nat, events: seq<Event>, r: Run): Run {
    match r
    case Consumed(q, es) => Consumed(q, events + es)
    case Stopped(n, es, reason) => Stopped(at + n, events + es, reason)
  }

  function OneByte(o: Outcome, ch: char): Run {
    match o
    case Next(q, signals) => Consumed(q, ByteEvents(q, signals, ch))
    case Error => Stopped(0, [], BadByte)
    case Upgraded(q, signals) => Stopped(0, SignalEvents(signals, ch), OtherProtocol)
    case Aborted => Stopped(0, [], AssertionFails)
    case Stray => Stopped(0, [], UndefinedStep)
  }

  /** The loop of one call, byte by byte. */
  function Feed(q: Parser, s: string): Run
    decreases |s|
  {
    hide Step;
    if s == [] then Consumed(q, [])
    else
      var one := OneByte(Step(q, s[0]), s[0]);
      if one.Stopped? then one else After(1, one.events, Feed(one.q, s[1..]))
  }

  /** Continue a run with more bytes. */
  function Then(at: nat, r: Run, s: string): Run {
    if r.Stopped? then r else After(at, r.events, Feed(r.q, s))
  }

  lemma AfterAfter(n: nat, a: seq<Event>, m: nat, b: seq<Event>, r: Run)
    ensures After(n, a, After(m, b, r)) == After(n + m, a + b, r)
  {
    assert a + (b + r.events) == (a + b) + r.events;
  }

  lemma AfterNothing(r: Run)
    ensures After(0, [], r) == r
  {
    assert [] + r.events == r.events;
  }

  lemma {:induction false} FeedAppend(q: Parser, a: string, b: string)
    ensures Feed(q, a + b) == Then(|a|, Feed(q, a), b)
    decreases |a|
  {
    hide Step, After;
    if a == [] {
      assert a + b == b;
      AfterNothing(Feed(q, b));
    } else {
      assert (a + b)[0] == a[0] && (a + b)[1..] == a[1..] + b;
      var one := OneByte(Step(q, a[0]), a[0]);
      if one.Consumed? {
        FeedAppend(one.q, a[1..], b);
        var r := Feed(one.q, a[1..]);
        AfterIs(1, one.events, r);
        if r.Consumed? { AfterAfter(1, one.events, |a| - 1, r.events, Feed(r.q, b)); }
      }
    }
  }

  lemma AfterIs(n: nat, es: seq<Event>, r: Run)
    ensures r.Consumed? ==> After(n, es, r) == Consumed(r.q, es + r.events)
    ensures r.Stopped? ==> After(n, es, r) == Stopped(n + r.at, es + r.events, r.reason)
  {
  }

  lemma FeedOne(q: Parser, ch: char)
    ensures Feed(q, [ch]) == OneByte(Step(q, ch), ch)
  {
    var one := OneByte(Step(q, ch), ch);
    if one.Consumed? {
      assert [ch][1..] == [];
      assert one.events + [] == one.events;
    }
  }

  lemma FeedEmpty(q: Parser)
    ensures Feed(q, []) == Consumed(q, [])
  {
    hide Step;
  }

  lemma FeedTwice(q: Parser, x: Inbox, a: string, b: string)
    requires Feed(q, a).Consumed? && Feed(Feed(q, a).q, b).Consumed?
    ensures var r, t := Feed(q, a + b), Feed(Feed(q, a).q, b);
            r.Consumed? && r.q == t.q && Collect(x, r.events) == Collect(Collect(x, Feed(q, a).events), t.events)
  {
    hide Feed;
    FeedAppend(q, a, b);
    CollectAppend(x, Feed(q, a).events, Feed(Feed(q, a).q, b).events);
  }

  /** The loop invariant of a call: one more byte of the buffer. */
  lemma FeedSnoc(q: Parser, s: string, n: nat)
    requires n < |s|
    ensures Feed(q, s[..n + 1]) ==
            (var r := Feed(q, s[..n]);
             if r.Stopped? then r else After(n, r.events, OneByte(Step(r.q, s[n]), s[n])))
  {
    assert s[..n + 1] == s[..n] + [s[n]];
    FeedAppend(q, s[..n], [s[n]]);
    var r := Feed(q, s[..n]);
    if r.Consumed? {
      FeedOne(r.q, s[n]);
    }
  }

  /** A run that stops is a run that consumes the bytes before, and a byte that stops it. */
  predicate StopsAt(q: Parser, s: string, r: Run)
    requires r.Stopped?
  {
    && r.at < |s|
    && var before := Feed(q, s[..r.at]);
       && before.Consumed?
       && var one := OneByte(Step(before.q, s[r.at]), s[r.at]);
          one.Stopped? && one.at == 0 && r.events == before.events + one.events && r.reason == one.reason
  }

  lemma {:induction false} StopIs(q: Parser, s: string)
    requires Feed(q, s).Stopped?
    ensures StopsAt(q, s, Feed(q, s))
    decreases |s|
  {
    hide Step;
    var one := OneByte(Step(q, s[0]), s[0]);
    if one.Stopped? {
      assert s[..0] == [] && [] + one.events == one.events;
    } else {
      StopIs(one.q, s[1..]);
      var rest := Feed(one.q, s[1..]);
      var n := rest.at + 1;
      assert s[..n][0] == s[0] && s[..n][1..] == s[1..][..rest.at];
      var before := Feed(one.q, s[1..][..rest.at]);
      var last := OneByte(Step(before.q, s[n]), s[n]);
      assert one.events + (before.events + last.events) == (one.events + before.events) + last.events;
    }
  }

  /** The same loop without the limit on header bytes. */
  function FreeFeed(q: Parser, s: string): Run
    decreases |s|
  {
    hide FreeStep;
    if s == [] then Consumed(q, [])
    else
      var one := OneByte(FreeStep(q, s[0]), s[0]);
      if one.Stopped? then one else After(1, one.events, FreeFeed(one.q, s[1..]))
  }

  lemma {:induction false} FreeFeedAppend(q: Parser, a: string, b: string)
    ensures var r := FreeFeed(q, a);
            FreeFeed(q, a + b) == if r.Stopped? then r else After(|a|, r.events, FreeFeed(r.q, b))
    decreases |a|
  {
    hide FreeStep, After;
    if a == [] {
      assert a + b == b;
      AfterNothing(FreeFeed(q, b));
    } else {
      assert (a + b)[0] == a[0] && (a + b)[1..] == a[1..] + b;
      var one := OneByte(FreeStep(q, a[0]), a[0]);
      if one.Consumed? {
        FreeFeedAppend(one.q, a[1..], b);
        var r := FreeFeed(one.q, a[1..]);
        AfterIs(1, one.events, r);
        if r.Consumed? { AfterAfter(1, one.events, |a| - 1, r.events, FreeFeed(r.q, b)); }
      }
    }
  }

  lemma FreeFeedEmpty(q: Parser)
    ensures FreeFeed(q, []) == Consumed(q, [])
  {
  }

  lemma FreeFeedSnoc(q: Parser, s: string, ch: char)
    ensures FreeFeed(q, s + [ch]) ==
            (var r := FreeFeed(q, s);
             if r.Stopped? then r else After(|s|, r.events, OneByte(FreeStep(r.q, ch), ch)))
  {
    hide FreeStep;
    FreeFeedAppend(q, s, [ch]);
    var r := FreeFeed(q, s);
    if r.Consumed? {
      var one := OneByte(FreeStep(r.q, ch), ch);
      assert [ch][1..] == [];
      if one.Consumed? { assert one.events + [] == one.events; }
    }
  }

  lemma OneFreeByte(q: Parser, ch: char)
    ensures FreeFeed(q, [ch]) == OneByte(FreeStep(q, ch), ch)
  {
    hide FreeStep;
    FreeFeedEmpty(q);
    FreeFeedSnoc(q, [], ch);
    assert [] + [ch] == [ch];
    var one := OneByte(FreeStep(q, ch), ch);
    assert [] + one.events == one.events;
  }

  // ----- Calls -----

  /** What is stored when a call returns: two counters keep only their low byte. */
  function Narrow(q: Parser): Parser { q.(index := q.index % 256, nread := q.nread % 256) }

  /** `http_parser_execute` on a buffer that is not empty, when it consumes it. */
  function Call(q: Parser, s: string): Run {
    match Feed(q, s)
    case Consumed(q', es) => Consumed(Narrow(q'), es)
    case r => r
  }

  /** One call for each buffer, until one of them is not consumed. */
  function Calls(q: Parser, pieces: seq<string>): Run
    decreases |pieces|
  {
    if pieces == [] then Consumed(q, [])
    else
      var r := Call(q, pieces[0]);
      if r.Stopped? then r else After(|pieces[0]|, r.events, Calls(r.q, pieces[1..]))
  }

  function Concat(pieces: seq<string>): string {
    if pieces == [] then [] else pieces[0] + Concat(pieces[1..])
  }

  lemma ConcatNone()
    ensures Concat([]) == []
  {
  }
}
