/** How often `on_url` is called: in a call on one buffer, once for every request whose
    target it holds, with the whole URL. */
module UrlCalls {
  import opened Syntax
  import opened Machine
  import opened Messages
  import opened Marks
  import opened Frames
  import opened Invariant
  import opened Bodies
  import opened Independence
  import opened Protocol
  import opened Targets

  /** The bytes of each call of `on_url`. */
  function Urls(es: seq<Event>): seq<string> {
    if es == [] then []
    else (if es[0].Data? && es[0].slice.Url? then [es[0].bytes] else []) + Urls(es[1..])
  }

  lemma {:induction false} UrlsAppend(a: seq<Event>, b: seq<Event>)
    ensures Urls(a + b) == Urls(a) + Urls(b)
    decreases |a|
  {
    if a == [] {
      assert a + b == b && [] + Urls(b) == Urls(b);
    } else {
      assert (a + b)[0] == a[0] && (a + b)[1..] == a[1..] + b;
      UrlsAppend(a[1..], b);
      var first := if a[0].Data? && a[0].slice.Url? then [a[0].bytes] else [];
      assert first + (Urls(a[1..]) + Urls(b)) == first + Urls(a[1..]) + Urls(b);
    }
  }

  lemma {:induction false} NoUrls(es: seq<Event>)
    requires forall i :: 0 <= i < |es| ==> es[i].Data? ==> !es[i].slice.Url?
    ensures Urls(es) == []
    decreases |es|
  {
    if es != [] { NoUrls(es[1..]); }
  }

  function UrlsOf(ms: seq<Message>): seq<string> { seq(|ms|, i requires 0 <= i < |ms| => ms[i].url) }

  /** The states before the URL of the message has been told. */
  predicate Unread(s: State) { Early(s) || InTarget(s) }

  predicate UrlState(q: Parser, x: Inbox) { Unread(q.state) ==> x.cur.url == [] }

  /** The URLs an application with this inbox has been told. */
  function Due(q: Parser, x: Inbox): seq<string> {
    UrlsOf(x.done) + if Unread(q.state) then [] else [x.cur.url]
  }

  /** The callbacks tell each URL once, in one piece. */
  ghost predicate TellsUrls(q: Parser, es: seq<Event>, q': Parser) {
    forall x :: UrlState(q, x) ==>
      UrlState(q', Collect(x, es)) && Due(q', Collect(x, es)) == Due(q, x) + Urls(es)
  }

  lemma TellsThen(q: Parser, es: seq<Event>, q1: Parser, es1: seq<Event>, q2: Parser)
    requires TellsUrls(q, es, q1) && TellsUrls(q1, es1, q2)
    ensures TellsUrls(q, es + es1, q2)
  {
    hide Due, UrlState, Collect, Urls;
    UrlsAppend(es, es1);
    forall x | UrlState(q, x)
      ensures UrlState(q2, Collect(x, es + es1)) && Due(q2, Collect(x, es + es1)) == Due(q, x) + Urls(es + es1)
    {
      CollectAppend(x, es, es1);
      assert UrlState(q1, Collect(x, es));
      assert Due(q, x) + Urls(es) + Urls(es1) == Due(q, x) + (Urls(es) + Urls(es1));
    }
  }

  lemma TellsNothing(q: Parser)
    ensures TellsUrls(q, [], q)
  {
    forall x | UrlState(q, x) ensures UrlState(q, Collect(x, [])) && Due(q, Collect(x, [])) == Due(q, x) + Urls([]) {
      CollectNone(x);
      assert Due(q, x) + [] == Due(q, x);
    }
  }

  // ----- Callbacks that say nothing about the target -----

  /** Callbacks aside from the target, the last of which may complete the message. */
  predicate Quietly(es: seq<Event>, completes: bool) {
    if completes then es != [] && es[|es| - 1].Complete? && AllAside(es[..|es| - 1]) else AllAside(es)
  }

  predicate AllAside(es: seq<Event>) { forall i :: 0 <= i < |es| ==> Aside(es[i]) }

  lemma QuietlyTells(q: Parser, es: seq<Event>, q': Parser)
    requires !InTarget(q.state) && !InTarget(q'.state)
    requires Quietly(es, !Early(q.state) && Early(q'.state)) && (Early(q.state) ==> Early(q'.state))
    ensures TellsUrls(q, es, q')
  {
    hide Collect, InTarget, Early;
    var completes := !Early(q.state) && Early(q'.state);
    QuietUrls(es, completes);
    forall x | UrlState(q, x)
      ensures UrlState(q', Collect(x, es)) && Due(q', Collect(x, es)) == Due(q, x) + Urls(es)
    {
      if completes {
        var pre := es[..|es| - 1];
        assert es == pre + [Complete];
        TargetStays(x, pre);
        CollectAppend(x, pre, [Complete]);
        Collect1(Collect(x, pre), Complete);
        UrlsOfSnoc(x.done, Collect(x, pre).cur);
      } else {
        TargetStays(x, es);
        assert Due(q, x) + [] == Due(q, x);
      }
    }
  }

  lemma UrlsOfSnoc(ms: seq<Message>, m: Message)
    ensures UrlsOf(ms + [m]) == UrlsOf(ms) + [m.url]
  {
  }

  lemma QuietUrls(es: seq<Event>, completes: bool)
    requires Quietly(es, completes)
    ensures Urls(es) == []
  {
    if completes {
      var pre := es[..|es| - 1];
      assert es == pre + [Complete];
      NoUrls(pre);
      NoUrls([Complete]);
      UrlsAppend(pre, [Complete]);
    } else {
      NoUrls(es);
    }
  }

  lemma {:induction false} DeliveredAside(signals: seq<Signal>, m: Marks, data: string, p: nat)
    requires forall i :: 0 <= i < |signals| ==> Beside(signals[i])
    ensures AllAside(Delivered(signals, m, data, p))
    decreases |signals|
  {
    hide SliceFrom;
    if signals != [] {
      DeliveredAside(signals[1..], m, data, p);
      var es, rest := Delivered(signals, m, data, p), Delivered(signals[1..], m, data, p);
      forall i | 0 <= i < |es| ensures Aside(es[i]) {
        if |es| == |rest| + 1 && i > 0 { assert es[i] == rest[i - 1]; }
        if |es| == |rest| { assert es[i] == rest[i]; }
      }
    }
  }

  lemma {:induction false} DeliveredAppend(a: seq<Signal>, b: seq<Signal>, m: Marks, data: string, p: nat)
    ensures Delivered(a + b, m, data, p) == Delivered(a, m, data, p) + Delivered(b, m, data, p)
    decreases |a|
  {
    hide SliceFrom;
    if a == [] {
      assert a + b == b;
    } else {
      assert (a + b)[0] == a[0] && (a + b)[1..] == a[1..] + b;
      DeliveredAppend(a[1..], b, m, data, p);
    }
  }

  /** Outside the target. */
  lemma QuietDelivered(s: State, q': Parser, signals: seq<Signal>, m: Marks, data: string, p: nat)
    requires Quiet(s, Next(q', signals))
    ensures Quietly(Delivered(signals, m, data, p), !Early(s) && Early(q'.state))
  {
    hide InTarget, Early, TargetSlice, Delivered;
    if Completes(signals) {
      var pre := signals[..|signals| - 1];
      assert signals == pre + [MessageComplete];
      forall i | 0 <= i < |pre| ensures Beside(pre[i]) { assert pre[i] == signals[i]; }
      DeliveredAside(pre, m, data, p);
      DeliveredAppend(pre, [MessageComplete], m, data, p);
      var head := Delivered(pre, m, data, p);
      Notices(m, data, p, RequestSummary(GET, 0, 0, false, 0));
      assert Delivered(signals, m, data, p) == head + [Complete];
      assert (head + [Complete])[..|head|] == head;
    } else {
      forall i | 0 <= i < |signals| ensures Beside(signals[i]) {
        assert i < |signals| - 1 ==> !signals[i].MessageComplete?;
      }
      DeliveredAside(signals, m, data, p);
    }
  }

  // ----- The target -----

  /** A byte that stays before or in the target flushes no URL; the byte that ends the
      target flushes it, once. */
  predicate UrlShaped(s': State, signals: seq<Signal>) {
    if Unread(s') then signals == [] || signals == [Flush(Path)] || signals == [Flush(Query)]
    else || signals == [Flush(Url)] || signals == [Flush(Url), Flush(Path)]
         || signals == [Flush(Url), Flush(Query)] || signals == [Flush(Url), Flush(Fragment)]
  }

  lemma AuthorityShaped(q: Parser, ch: char)
    requires q.state.ReqSpacesBeforeUrl? || InAuthority(q.state)
    ensures var o := UrlByte(q, ch); o.Next? ==> UrlShaped(o.q.state, o.signals)
  {
  }

  lemma PathShaped(q: Parser, ch: char)
    requires InTarget(q.state) && !InAuthority(q.state)
    ensures var o := UrlByte(q, ch); o.Next? ==> UrlShaped(o.q.state, o.signals)
  {
  }

  lemma OneUrl(x: Inbox, b: string)
    requires x.cur.url == []
    ensures Urls([Data(Url, b)]) == [b]
    ensures var y := Collect(x, [Data(Url, b)]); y.done == x.done && y.cur.url == b
  {
    Collect1(x, Data(Url, b));
    assert [Data(Url, b)][1..] == [] && Urls([]) == [] && [b] + [] == [b] && [] + b == b;
  }

  lemma UrlThen(x: Inbox, b: string, k: Slice, c: string)
    requires x.cur.url == [] && TargetSlice(k) && !k.Url?
    ensures Urls([Data(Url, b), Data(k, c)]) == [b]
    ensures var y := Collect(x, [Data(Url, b), Data(k, c)]); y.done == x.done && y.cur.url == b
  {
    Collect2(x, Data(Url, b), Data(k, c));
    assert [Data(Url, b), Data(k, c)] == [Data(Url, b)] + [Data(k, c)];
    UrlsAppend([Data(Url, b)], [Data(k, c)]);
    OneUrl(x, b);
    NoUrls([Data(k, c)]);
    assert [b] + [] == [b];
  }

  lemma OtherSlice(x: Inbox, k: Slice, c: string)
    requires k.Path? || k.Query?
    ensures Urls([Data(k, c)]) == []
    ensures var y := Collect(x, [Data(k, c)]); y.done == x.done && y.cur.url == x.cur.url
  {
    Collect1(x, Data(k, c));
    NoUrls([Data(k, c)]);
  }

  lemma TargetTells(q: Parser, signals: seq<Signal>, q': Parser, m: Marks, data: string, p: nat)
    requires Unread(q.state) && UrlShaped(q'.state, signals)
    ensures TellsUrls(q, Delivered(signals, m, data, p), q')
  {
    hide Collect, Urls, Delivered, SliceFrom, Unread, UrlsOf;
    NoSignals(m, data, p);
    if signals != [] {
      var k := signals[|signals| - 1].slice;
      OneFlush(k, m, data, p, ' ');
      TwoFlushes(Url, k, m, data, p, ' ');
    }
    var es := Delivered(signals, m, data, p);
    forall x | UrlState(q, x)
      ensures UrlState(q', Collect(x, es)) && Due(q', Collect(x, es)) == Due(q, x) + Urls(es)
    {
      if signals == [] {
        CollectNone(x);
        NoUrls([]);
      } else if |signals| == 1 && !signals[0].slice.Url? {
        OtherSlice(x, signals[0].slice, es[0].bytes);
      } else if |signals| == 1 {
        OneUrl(x, es[0].bytes);
      } else {
        UrlThen(x, es[0].bytes, signals[1].slice, es[1].bytes);
      }
    }
  }

  // ----- One turn of the loop -----

  /** A request stays before its target until it is in it. */
  lemma EarlyStays(q: Parser, ch: char)
    requires Inv(q) && Plain(q) && q.kind.Request? && Early(q.state) && !InUrl(q.state)
    ensures var o := FreeStep(q, ch); o.Next? ==> Early(o.q.state)
  {
    hide StartByte, Inv, Plain;
    RequestStarts(q);
    if InStart(q.state) {
      StartFrame(Count(q), ch);
    }
  }

  lemma RequestStarts(q: Parser)
    requires Plain(q) && q.kind.Request?
    ensures !InStatusLine(q.state)
  {
    hide PhaseOf;
    if InStatusLine(q.state) { StatusPhase(q.state); }
  }

  lemma StatusPhase(s: State)
    requires InStatusLine(s)
    ensures LiveIn(PhaseOf(s)).kinds.Responses?
  {
  }

  lemma StepTells(q: Parser, ch: char, m: Marks, data: string, p: nat)
    requires Inv(q) && Plain(q) && q.kind.Request? && !q.state.ChunkData? && !q.state.BodyIdentity?
    ensures var o := FreeStep(q, ch);
            o.Next? ==> TellsUrls(q, Delivered(o.signals, m, data, p), o.q)
  {
    hide FreeStep, Inv, Plain, TellsUrls, Delivered, UrlByte, Early, Quiet, InUrl, UrlShaped;
    var o := FreeStep(q, ch);
    if o.Next? {
      if InUrl(q.state) {
        UrlDispatch(q, ch);
        SameUrlState(q);
        if q.state.ReqSpacesBeforeUrl? || InAuthority(q.state) { AuthorityShaped(Count(q), ch); }
        else { PathShaped(Count(q), ch); }
        UrlUnread(q.state);
        TargetTells(q, o.signals, o.q, m, data, p);
      } else {
        StepQuiet(q, ch);
        if Early(q.state) { EarlyStays(q, ch); }
        QuietDelivered(q.state, o.q, o.signals, m, data, p);
        QuietNext(q.state, o);
        QuietlyTells(q, Delivered(o.signals, m, data, p), o.q);
      }
    }
  }

  lemma SameUrlState(q: Parser)
    ensures Count(q).state == q.state
  {
  }

  lemma UrlUnread(s: State)
    requires InUrl(s)
    ensures Unread(s)
  {
  }

  lemma QuietNext(s: State, o: Outcome)
    requires Quiet(s, o) && o.Next?
    ensures !InTarget(o.q.state)
  {
    hide InTarget;
  }

  /** A jump over body bytes. */
  lemma BodyTells(q: Parser, bytes: string, q': Parser)
    requires |bytes| <= q.contentLength
    requires if q.state.BodyIdentity? then q' == AfterIdentity(q, |bytes|)
             else q.state.ChunkData? && q' == AfterChunkData(q, |bytes|)
    ensures TellsUrls(q, BodyCallbacks(bytes, q.state.BodyIdentity? && |bytes| == q.contentLength), q')
  {
    hide NewMessage, TellsUrls;
    NewMessageState(q.(contentLength := 0));
    QuietlyTells(q, BodyCallbacks(bytes, q.state.BodyIdentity? && |bytes| == q.contentLength), q');
  }

  /** The slices flushed at the end of a buffer that does not end in a target. */
  lemma PendingTells(q: Parser, m: Marks, data: string, p: nat)
    requires !InTarget(q.state)
    ensures TellsUrls(q, Pending(m, q.state, data, p), q)
  {
    hide SliceFrom, TellsUrls, Open, InTarget, Pending;
    OnlyHeaderSlices(q.state);
    PendingIs(m, q.state, data, p);
    AtMostTwo(q.state);
    QuietlyTells(q, Pending(m, q.state, data, p), q);
  }

  lemma NarrowTells(q: Parser, es: seq<Event>, q': Parser)
    requires TellsUrls(q, es, q')
    ensures TellsUrls(q, es, Narrow(q'))
  {
    hide Collect, Urls, Early, InTarget;
    forall x | UrlState(q, x)
      ensures UrlState(Narrow(q'), Collect(x, es)) && Due(Narrow(q'), Collect(x, es)) == Due(q, x) + Urls(es)
    {
      assert UrlState(q', Collect(x, es));
    }
  }

  // ----- The end of a call -----

  /** The URLs told by the end of a call: one that the buffer cuts off is told in part. */
  function AllDue(q: Parser, x: Inbox): seq<string> {
    UrlsOf(x.done) + if Early(q.state) then [] else [x.cur.url]
  }

  /** The callbacks up to the end of a buffer. */
  ghost predicate TellsAll(q: Parser, es: seq<Event>, q': Parser) {
    forall x :: UrlState(q, x) ==> AllDue(q', Collect(x, es)) == Due(q, x) + Urls(es)
  }

  /** The callbacks up to the end of a message that asks for another protocol. */
  ghost predicate TellsLast(q: Parser, es: seq<Event>) {
    forall x :: UrlState(q, x) ==> UrlsOf(Collect(x, es).done) == Due(q, x) + Urls(es)
  }

  lemma TellsThenAll(q: Parser, es: seq<Event>, q1: Parser, es1: seq<Event>, q2: Parser)
    requires TellsUrls(q, es, q1)
    ensures TellsAll(q1, es1, q2) ==> TellsAll(q, es + es1, q2)
    ensures TellsLast(q1, es1) ==> TellsLast(q, es + es1)
  {
    hide Due, AllDue, UrlState, UrlsOf, Collect, Urls;
    UrlsAppend(es, es1);
    forall x | UrlState(q, x)
      ensures TellsAll(q1, es1, q2) ==> AllDue(q2, Collect(x, es + es1)) == Due(q, x) + Urls(es + es1)
      ensures TellsLast(q1, es1) ==> UrlsOf(Collect(x, es + es1).done) == Due(q, x) + Urls(es + es1)
    {
      CollectAppend(x, es, es1);
      assert UrlState(q1, Collect(x, es));
      assert Due(q, x) + Urls(es) + Urls(es1) == Due(q, x) + (Urls(es) + Urls(es1));
    }
  }

  /** The slices that are open in a target, when the buffer ends there. */
  lemma TargetPending(q: Parser, m: Marks, data: string, p: nat)
    requires InTarget(q.state)
    ensures TellsAll(q, Pending(m, q.state, data, p), q)
  {
    hide SliceFrom, Open, Urls, Pending, Collect, AddData;
    PendingIs(m, q.state, data, p);
    AtMostTwo(q.state);
    OpensUrl(q.state);
    var es := Pending(m, q.state, data, p);
    forall x | UrlState(q, x) ensures AllDue(q, Collect(x, es)) == Due(q, x) + Urls(es) {
      if |es| == 1 {
        OneUrl(x, es[0].bytes);
      } else {
        ThenUrl(x, es[0].slice, es[0].bytes, es[1].bytes);
      }
      assert UrlsOf(x.done) + [] == UrlsOf(x.done);
    }
  }

  lemma OpensUrl(s: State)
    requires InTarget(s)
    ensures 0 < |Open(s)| <= 2 && Open(s)[|Open(s)| - 1].Url? && !Early(s)
  {
  }

  lemma ThenUrl(x: Inbox, k: Slice, c: string, b: string)
    requires x.cur.url == [] && k in {Path, Query, Fragment}
    ensures Urls([Data(k, c), Data(Url, b)]) == [b]
    ensures var y := Collect(x, [Data(k, c), Data(Url, b)]); y.done == x.done && y.cur.url == b
  {
    Collect2(x, Data(k, c), Data(Url, b));
    assert [Data(k, c), Data(Url, b)] == [Data(k, c)] + [Data(Url, b)];
    UrlsAppend([Data(k, c)], [Data(Url, b)]);
    OneUrl(x, b);
    NoUrls([Data(k, c)]);
    assert [] + [b] == [b];
  }

  /** The end of a buffer, wherever it is, and what is stored then. */
  lemma PendingTellsAll(q: Parser, m: Marks, data: string, p: nat)
    ensures TellsAll(q, Pending(m, q.state, data, p), Narrow(q))
  {
    hide SliceFrom, Open, Urls, Pending, Collect, InTarget, Early;
    if InTarget(q.state) {
      TargetPending(q, m, data, p);
    } else {
      PendingTells(q, m, data, p);
    }
    var es := Pending(m, q.state, data, p);
    forall x | UrlState(q, x) ensures AllDue(Narrow(q), Collect(x, es)) == Due(q, x) + Urls(es) {
      assert AllDue(q, Collect(x, es)) == Due(q, x) + Urls(es);
    }
  }

  /** The byte that ends a message that asks for another protocol. */
  lemma UpgradeTells(q: Parser, ch: char, m: Marks, data: string, p: nat)
    requires FreeStep(q, ch).Upgraded?
    ensures TellsLast(q, Delivered(FreeStep(q, ch).signals, m, data, p))
  {
    hide FreeStep, SummaryOf, Delivered, Collect, Urls;
    UpgradesAtEnd(q, ch);
    var s := SummaryOf(FreeStep(q, ch).q);
    Notices(m, data, p, s);
    var es := [HeadersDone(s), Complete];
    NoUrls(es);
    forall x | UrlState(q, x) ensures UrlsOf(Collect(x, es).done) == Due(q, x) + Urls(es) {
      Collect2(x, HeadersDone(s), Complete);
      UrlsOfSnoc(x.done, x.cur.(summary := x.cur.summary + [s]));
      assert Due(q, x) + [] == Due(q, x);
    }
  }

  /** A refused byte, and the begin that may come before it is refused. */
  lemma RefusedTells(q: Parser, es: seq<Event>)
    requires es == [] || (es == [Begin] && BetweenMessages(q.state))
    ensures TellsUrls(q, es, q)
  {
    if es == [] { TellsNothing(q); } else { QuietlyTells(q, es, q); }
  }
}
