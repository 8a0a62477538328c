/** The parser can be interrupted at any byte: feeding a buffer in pieces is
    feeding it whole. */
module Split {
  import opened Syntax
  import opened Machine
  import opened Messages
  import opened Frames
  import opened Invariant

  // ----- What the header counter holds, and who reads it -----

  function WithNread(o: Outcome, n: nat): Outcome {
    match o
    case Next(q, signals) => Next(q.(nread := n), signals)
    case Upgraded(q, signals) => Upgraded(q.(nread := n), signals)
    case _ => o
  }

  /** The bytes that end a header block, or a chunk-size line, with LF. */
  predicate Resets(q: Parser, ch: char) {
    ch == LF &&
    (|| ((q.state.HeaderFieldStart? || q.state.HeadersAlmostDone?) && !q.flags.trailing)
     || q.state.ChunkSizeAlmostDone?)
  }

  /** The counter after one byte: restarted, or one more in a header state. */
  function Counted(q: Parser, n: nat, ch: char): nat {
    if Resets(q, ch) then 0 else if ParsingHeader(q.state) then n + 1 else n
  }

  lemma FrontNread(q: Parser, n: nat, ch: char)
    requires InStart(q.state) || InStatusLine(q.state) || InUrl(q.state) || InRequestVersion(q.state)
    ensures Dispatch(q.(nread := n), ch) == WithNread(Dispatch(q, ch), n)
  {
    hide StartByte, StatusLineByte, UrlByte, RequestVersionByte, HeaderNameByte, HeaderValueByte,
         BodyStep, EndOfHeaders;
    var p := q.(nread := n);
    if InStart(q.state) { StartAgree(p, q, ch); StartFrame(p, ch); StartFrame(q, ch); }
    else if InStatusLine(q.state) { StatusLineAgree(p, q, ch); StatusLineFrame(p, ch); StatusLineFrame(q, ch); }
    else if InUrl(q.state) { UrlLocal(p, q, ch); UrlLocal(q, q, ch); UrlFrame(q, ch); }
    else { RequestVersionAgree(p, q, ch); RequestVersionFrame(p, ch); RequestVersionFrame(q, ch); }
  }

  lemma EndOfHeadersNread(q: Parser, n: nat, ch: char)
    requires q.state.HeadersAlmostDone?
    ensures EndOfHeaders(q.(nread := n), ch) == WithNread(EndOfHeaders(q, ch), if Resets(q, ch) then 0 else n)
  {
  }

  lemma HeaderNameNread(q: Parser, n: nat, ch: char)
    requires Inv(q) && InHeaderName(q.state)
    ensures HeaderNameByte(q.(nread := n), ch) == WithNread(HeaderNameByte(q, ch), if Resets(q, ch) then 0 else n)
  {
    hide NameByte, EndOfHeaders, Token;
    var p := q.(nread := n);
    if q.state.HeaderFieldStart? {
      EndOfHeadersNread(q.(state := HeadersAlmostDone), n, ch);
    } else {
      NameAgree(p, q, ch, Token(ch));
      NameFrame(p, ch, Token(ch));
      NameFrame(q, ch, Token(ch));
    }
  }

  lemma HeaderValueNread(q: Parser, n: nat, ch: char)
    requires Inv(q) && InHeaderValue(q.state)
    ensures HeaderValueByte(q.(nread := n), ch) == WithNread(HeaderValueByte(q, ch), n)
  {
    hide ValueByte, FirstValueByte, EndOfValue, Inv;
    var p := q.(nread := n);
    HeaderPhases(q);
    EndOfValueFrame(p, []); EndOfValueFrame(q, []); EndOfValueAgree(p, q, []);
    EndOfValueFrame(p, [Flush(Value)]); EndOfValueFrame(q, [Flush(Value)]); EndOfValueAgree(p, q, [Flush(Value)]);
    if q.state.HeaderValue? {
      ValueAgree(p, q, ch); ValueFrame(p, ch); ValueFrame(q, ch);
    } else {
      FirstValueAgree(p, q, ch); FirstValueFrame(p, ch); FirstValueFrame(q, ch);
    }
  }

  lemma BodyNread(q: Parser, n: nat, ch: char)
    requires InBody(q.state)
    requires q.state.ChunkSizeStart? ==> n == q.nread
    ensures BodyStep(q.(nread := n), ch) == WithNread(BodyStep(q, ch), if Resets(q, ch) then 0 else n)
  {
    hide Unhex, Wrap;
  }

  /** `n` is a counter a stored parser could hold instead of `q.nread`. */
  predicate Countable(q: Parser, n: nat) {
    q.state.ChunkSizeStart? || (InBody(q.state) && !ParsingHeader(q.state)) ==> n == 0
  }

  /** Nothing else depends on the counter. */
  lemma NreadStep(q: Parser, n: nat, ch: char)
    requires Inv(q) && Countable(q, n)
    ensures FreeStep(q.(nread := n), ch) == WithNread(FreeStep(q, ch), Counted(q, n, ch))
  {
    hide StartByte, StatusLineByte, UrlByte, RequestVersionByte, HeaderNameByte, HeaderValueByte,
         BodyStep, EndOfHeaders, Inv;
    var c := Count(q);
    var m := Count(q.(nread := n)).nread;
    if InStart(q.state) || InStatusLine(q.state) || InUrl(q.state) || InRequestVersion(q.state) {
      FrontNread(c, m, ch);
    } else if InHeaderName(q.state) { CountSafe(q); HeaderNameNread(c, m, ch); }
    else if InHeaderValue(q.state) { CountSafe(q); HeaderValueNread(c, m, ch); }
    else if InBody(q.state) { BodyCountable(q, n); BodyNread(c, m, ch); }
    else if q.state.HeadersAlmostDone? { EndOfHeadersNread(c, m, ch); }
  }

  lemma OtherCountable(q: Parser, n: nat)
    ensures HeaderInv(q.(nread := n)) == HeaderInv(q) && NumberInv(q.(nread := n)) == NumberInv(q)
  {
    hide NamePhase, NameIndex, ValuePhase, ValueIndex;
  }

  lemma BodyCountable(q: Parser, n: nat)
    requires Inv(q) && Countable(q, n)
    ensures q.state.ChunkSizeStart? ==> n == q.nread
    ensures Inv(q.(nread := n))
  {
    hide HeaderInv, NumberInv;
    OtherCountable(q, n);
  }

  /** The counter after one byte, whatever it was before. */
  lemma CountedStep(q: Parser, n: nat, ch: char)
    requires Inv(q) && Countable(q, n)
    ensures var o := FreeStep(q, ch);
            o.Next? ==> Inv(o.q) && Countable(o.q, Counted(q, n, ch)) && o.q.nread == Counted(q, q.nread, ch)
  {
    hide FreeStep, Resets, Inv;
    InvCountable(q);
    NreadStep(q, q.nread, ch);
    NreadStep(q, n, ch);
    BodyCountable(q, n);
    FreeStepSafe(q, ch);
    FreeStepSafe(q.(nread := n), ch);
    var o := FreeStep(q.(nread := n), ch);
    if o.Next? { InvCountable(o.q); }
  }

  lemma InvCountable(q: Parser)
    requires Inv(q)
    ensures Countable(q, q.nread)
  {
  }

  // ----- Header accounting over a run -----

  /** The bytes of `s` that are read in a header state. */
  function HeaderBytes(q: Parser, s: string): nat
    decreases |s|
  {
    hide FreeStep;
    if s == [] then 0
    else
      var here, o := if ParsingHeader(q.state) then 1 else 0, FreeStep(q, s[0]);
      if o.Next? then here + HeaderBytes(o.q, s[1..]) else here
  }

  /** Byte `k` of `s` restarts the counter. */
  predicate RestartsAt(q: Parser, s: string, k: nat)
    requires k < |s|
  {
    var r := FreeFeed(q, s[..k]);
    r.Consumed? && Resets(r.q, s[k])
  }

  predicate NeverRestarts(q: Parser, s: string) { forall k :: 0 <= k < |s| ==> !RestartsAt(q, s, k) }

  lemma RestartsLater(q: Parser, s: string, k: nat)
    requires k + 1 < |s| && FreeStep(q, s[0]).Next?
    ensures RestartsAt(q, s, k + 1) <==> RestartsAt(FreeStep(q, s[0]).q, s[1..], k)
  {
    hide FreeStep, Resets;
    assert s[..k + 1][0] == s[0] && s[..k + 1][1..] == s[1..][..k];
  }

  lemma RestartsFirst(q: Parser, s: string)
    requires s != []
    ensures RestartsAt(q, s, 0) <==> Resets(q, s[0])
  {
    hide FreeStep, Resets;
    assert s[..0] == [];
  }

  lemma NeverLater(q: Parser, s: string)
    requires s != [] && FreeStep(q, s[0]).Next?
    ensures NeverRestarts(q, s) <==> !Resets(q, s[0]) && NeverRestarts(FreeStep(q, s[0]).q, s[1..])
  {
    hide FreeStep, Resets, RestartsAt;
    RestartsFirst(q, s);
    var q1 := FreeStep(q, s[0]).q;
    forall k | 0 <= k < |s| - 1 ensures RestartsAt(q, s, k + 1) <==> RestartsAt(q1, s[1..], k) { RestartsLater(q, s, k); }
    if !Resets(q, s[0]) && NeverRestarts(q1, s[1..]) {
      forall k | 0 <= k < |s| ensures !RestartsAt(q, s, k) {
        if k > 0 { assert !RestartsAt(q1, s[1..], k - 1); }
      }
    }
  }

  lemma {:induction false} CountsWhileNone(q: Parser, s: string)
    requires Inv(q) && FreeFeed(q, s).Consumed? && NeverRestarts(q, s)
    ensures FreeFeed(q, s).q.nread == q.nread + HeaderBytes(q, s)
    decreases |s|
  {
    hide FreeStep, Inv, Resets, NeverRestarts;
    if s != [] {
      InvCountable(q);
      CountedStep(q, q.nread, s[0]);
      NeverLater(q, s);
      CountsWhileNone(FreeStep(q, s[0]).q, s[1..]);
    }
  }

  /** Header accounting: over every run the counter is the number of bytes read in header
      states since byte `j`, where it was last restarted, or since the run began. */
  lemma {:induction false} Accounting(q: Parser, s: string) returns (j: nat)
    requires Inv(q) && FreeFeed(q, s).Consumed?
    ensures j <= |s| && FreeFeed(q, s[..j]).Consumed? && NeverRestarts(FreeFeed(q, s[..j]).q, s[j..])
    ensures j > 0 ==> RestartsAt(q, s, j - 1)
    ensures FreeFeed(q, s).q.nread == (if j == 0 then q.nread else 0) + HeaderBytes(FreeFeed(q, s[..j]).q, s[j..])
    decreases |s|
  {
    hide FreeStep, FreeFeed, Inv, Resets, NeverRestarts, HeaderBytes, RestartsAt;
    assert s[..0] == [] && s[0..] == s;
    FreeFeedEmpty(q);
    if NeverRestarts(q, s) {
      j := 0;
      CountsWhileNone(q, s);
    } else {
      NonEmptyRestarts(q, s);
      InvCountable(q);
      CountedStep(q, q.nread, s[0]);
      FirstByte(q, s);
      NeverLater(q, s);
      RestartsFirst(q, s);
      var q1 := FreeStep(q, s[0]).q;
      var k := Accounting(q1, s[1..]);
      j := k + 1;
      assert s[..j][0] == s[0] && s[..j][1..] == s[1..][..k] && s[j..] == s[1..][k..];
      FirstByte(q, s[..j]);
      if k > 0 { RestartsLater(q, s, k - 1); }
      else { assert s[1..][..0] == [] && s[1..][0..] == s[1..]; FreeFeedEmpty(q1); }
    }
  }

  lemma FirstByte(q: Parser, s: string)
    requires s != []
    ensures var o := FreeStep(q, s[0]);
            && (FreeFeed(q, s).Consumed? <==> o.Next? && FreeFeed(o.q, s[1..]).Consumed?)
            && (FreeFeed(q, s).Consumed? ==> FreeFeed(q, s).q == FreeFeed(o.q, s[1..]).q)
  {
    hide FreeStep;
  }

  lemma NonEmptyRestarts(q: Parser, s: string)
    requires !NeverRestarts(q, s)
    ensures s != []
  {
  }

  // ----- Feeding in pieces -----

  lemma StepFromLess(q: Parser, n: nat, ch: char)
    requires Inv(q) && Countable(q, n) && n <= q.nread && n % 256 == q.nread % 256
    requires Step(q, ch).Next?
    ensures Step(q.(nread := n), ch) == WithNread(Step(q, ch), Counted(q, n, ch))
    ensures var o, k := Step(q, ch), Counted(q, n, ch);
            Inv(o.q) && Countable(o.q, k) && k <= o.q.nread && k % 256 == o.q.nread % 256
  {
    hide FreeStep, Inv, Resets, Countable;
    NreadStep(q, n, ch);
    CountedStep(q, n, ch);
  }

  /** The counter a run starts from may be any smaller one with the same low byte. */
  lemma {:induction false} FeedFromLess(q: Parser, n: nat, s: string)
    requires Inv(q) && Countable(q, n)
    requires n <= q.nread && n % 256 == q.nread % 256
    requires Feed(q, s).Consumed?
    ensures var r, r' := Feed(q, s), Feed(q.(nread := n), s);
            && r'.Consumed? && r'.events == r.events
            && r'.q == r.q.(nread := r'.q.nread)
            && r'.q.nread <= r.q.nread && r'.q.nread % 256 == r.q.nread % 256
    decreases |s|
  {
    hide Step, Inv, Countable, Counted, ByteEvents;
    if s != [] {
      StepFromLess(q, n, s[0]);
      var o := Step(q, s[0]);
      var k := Counted(q, n, s[0]);
      SameBytes(o.q, k, o.signals, s[0]);
      FeedFromLess(o.q, k, s[1..]);
    }
  }

  lemma SameBytes(q: Parser, n: nat, signals: seq<Signal>, ch: char)
    ensures ByteEvents(q.(nread := n), signals, ch) == ByteEvents(q, signals, ch)
  {
    hide SignalEvents, OpenEvents;
  }

  /** Split invariance: two calls consume what one call consumes, leave the same
      stored parser and cause the same message data. */
  lemma SplitOnce(q: Parser, a: string, b: string)
    requires Inv(q) && Call(q, a + b).Consumed?
    ensures Call(q, a).Consumed?
    ensures Inv(Call(q, a).q)
    ensures var r, r1, r2 := Call(q, a + b), Call(q, a), Call(Call(q, a).q, b);
            r2.Consumed? && r2.q == r.q && r.events == r1.events + r2.events
  {
    hide Feed, Inv, Countable;
    FeedAppend(q, a, b);
    FeedSafe(q, a);
    var mid := Feed(q, a).q;
    NarrowIndex(mid);
    FeedFromLess(mid, mid.nread % 256, b);
    FeedSafe(mid, b);
    NarrowIndex(Feed(mid, b).q);
  }

  /** The 8-bit `index` loses nothing. */
  lemma NarrowIndex(q: Parser)
    requires Inv(q)
    ensures Narrow(q) == q.(nread := q.nread % 256)
    ensures Inv(Narrow(q)) && Countable(q, q.nread % 256)
  {
  }

  /** Split invariance for any number of pieces. */
  lemma {:induction false} SplitMany(q: Parser, pieces: seq<string>)
    requires Inv(q) && Call(q, Concat(pieces)).Consumed?
    requires pieces != [] && forall i :: 0 <= i < |pieces| ==> pieces[i] != []
    ensures Calls(q, pieces) == Call(q, Concat(pieces))
    decreases |pieces|
  {
    hide Call, Inv;
    if |pieces| == 1 {
      assert pieces[1..] == [] && pieces[0] + [] == pieces[0];
      var r := Call(q, pieces[0]);
      assert r.events + [] == r.events;
    } else {
      SplitOnce(q, pieces[0], Concat(pieces[1..]));
      SplitMany(Call(q, pieces[0]).q, pieces[1..]);
    }
  }

  /** No assertion fires over any sequence of calls, and what is stored is fit for the next. */
  lemma {:induction false} CallsSafe(q: Parser, pieces: seq<string>)
    requires Inv(q)
    ensures var r := Calls(q, pieces); if r.Consumed? then Inv(r.q) else r.reason != AssertionFails
    decreases |pieces|
  {
    hide Feed, Inv;
    if pieces != [] {
      FeedSafe(q, pieces[0]);
      var r := Call(q, pieces[0]);
      if r.Consumed? { CallsSafe(r.q, pieces[1..]); }
    }
  }

  /** The calls made so far, and one more. */
  lemma {:induction false} CallsSnoc(q: Parser, done: seq<string>, next: string)
    ensures Calls(q, done + [next]) ==
            (var r := Calls(q, done);
             if r.Stopped? then r else After(|Concat(done)|, r.events, Call(r.q, next)))
    decreases |done|
  {
    hide Call;
    if done == [] {
      assert [] + [next] == [next] && [next][1..] == [];
      var r := Call(q, next);
      assert r.events + [] == r.events && [] + r.events == r.events;
    } else {
      assert (done + [next])[0] == done[0] && (done + [next])[1..] == done[1..] + [next];
      var r := Call(q, done[0]);
      if r.Consumed? {
        CallsSnoc(r.q, done[1..], next);
        var rest := Calls(r.q, done[1..]);
        if rest.Consumed? {
          var last := Call(rest.q, next);
          assert r.events + (rest.events + last.events) == (r.events + rest.events) + last.events;
        }
      }
    }
  }

  /** Once a call is not consumed, no later one is made. */
  lemma {:induction false} CallsStop(q: Parser, pieces: seq<string>, n: nat)
    requires n <= |pieces| && Calls(q, pieces[..n]).Stopped?
    ensures Calls(q, pieces) == Calls(q, pieces[..n])
    decreases |pieces| - n
  {
    hide Call;
    if n == |pieces| {
      assert pieces[..n] == pieces;
    } else {
      assert pieces[..n + 1] == pieces[..n] + [pieces[n]];
      CallsSnoc(q, pieces[..n], pieces[n]);
      CallsStop(q, pieces, n + 1);
    }
  }

  // ----- The converse, and the limit -----

  /** No run of header bytes is longer than the limit; `n` of the first have been read. */
  predicate WithinLimit(q: Parser, n: nat, s: string)
    decreases |s|
  {
    hide FreeStep;
    s == [] ||
    (&& (ParsingHeader(q.state) ==> n < MAX_HEADER_SIZE)
     && var o := FreeStep(q, s[0]);
        o.Next? ==> WithinLimit(o.q, Counted(q, n, s[0]), s[1..]))
  }

  /** The limit is exactly what separates the two loops. */
  lemma {:induction false} LimitExact(q: Parser, s: string)
    requires Inv(q)
    ensures Feed(q, s).Consumed? <==> FreeFeed(q, s).Consumed? && WithinLimit(q, q.nread, s)
    ensures Feed(q, s).Consumed? ==> Feed(q, s) == FreeFeed(q, s)
    decreases |s|
  {
    hide FreeStep, Inv, Resets;
    if s != [] {
      InvCountable(q);
      CountedStep(q, q.nread, s[0]);
      var o := FreeStep(q, s[0]);
      if o.Next? { LimitExact(o.q, s[1..]); }
    }
  }

  /** A short text is within the limit. */
  lemma {:induction false} ShortIsWithin(q: Parser, n: nat, s: string)
    requires n + |s| <= MAX_HEADER_SIZE
    ensures WithinLimit(q, n, s)
    decreases |s|
  {
    hide FreeStep, Resets;
    if s != [] {
      var o := FreeStep(q, s[0]);
      if o.Next? { ShortIsWithin(o.q, Counted(q, n, s[0]), s[1..]); }
    }
  }

  lemma ShortFeed(q: Parser, s: string)
    requires Inv(q) && q.nread + |s| <= MAX_HEADER_SIZE
    ensures Feed(q, s) == FreeFeed(q, s) || (Feed(q, s).Stopped? && FreeFeed(q, s).Stopped?)
    ensures Feed(q, s).Consumed? ==> Inv(Feed(q, s).q)
  {
    hide Inv, Feed, FreeFeed;
    ShortIsWithin(q, q.nread, s);
    LimitExact(q, s);
    FeedSafe(q, s);
  }

  lemma {:induction false} CountsUpTo(q: Parser, s: string)
    requires Inv(q) && FreeFeed(q, s).Consumed?
    ensures FreeFeed(q, s).q.nread <= q.nread + |s|
    decreases |s|
  {
    hide FreeStep, Inv, Resets;
    if s != [] {
      InvCountable(q);
      CountedStep(q, q.nread, s[0]);
      var o := FreeStep(q, s[0]);
      CountsUpTo(o.q, s[1..]);
    }
  }

  lemma {:induction false} FreeFeedNread(q: Parser, n: nat, s: string)
    requires Inv(q) && Countable(q, n)
    ensures var r, r' := FreeFeed(q, s), FreeFeed(q.(nread := n), s);
            && (r.Consumed? <==> r'.Consumed?) && r.events == r'.events
            && (r.Consumed? ==> r'.q == r.q.(nread := r'.q.nread) && Inv(r.q) && Inv(r'.q))
    decreases |s|
  {
    hide FreeStep, Inv, Resets, Countable;
    BodyCountable(q, n);
    if s != [] {
      NreadStep(q, n, s[0]);
      CountedStep(q, n, s[0]);
      var o := FreeStep(q, s[0]);
      if o.Next? { FreeFeedNread(o.q, Counted(q, n, s[0]), s[1..]); }
    }
  }

  lemma {:induction false} CallsFree(q: Parser, pieces: seq<string>)
    requires Inv(q) && Calls(q, pieces).Consumed?
    ensures FreeFeed(q, Concat(pieces)).Consumed?
    ensures FreeFeed(q, Concat(pieces)).events == Calls(q, pieces).events
    decreases |pieces|
  {
    hide Feed, FreeFeed, Inv, Countable;
    if pieces == [] {
      FreeFeedEmpty(q);
    } else {
      var a, rest := pieces[0], Concat(pieces[1..]);
      LimitExact(q, a);
      FeedSafe(q, a);
      FreeFeedAppend(q, a, rest);
      var mid := Feed(q, a).q;
      NarrowIndex(mid);
      CallsFree(Narrow(mid), pieces[1..]);
      FreeFeedNread(mid, mid.nread % 256, rest);
    }
  }

  /** When every piece is consumed, the whole buffer is consumed exactly if none of
      its header runs is longer than the limit: the stored counter forgets the rest. */
  lemma JoinExact(q: Parser, pieces: seq<string>)
    requires Inv(q) && Calls(q, pieces).Consumed?
    ensures Call(q, Concat(pieces)).Consumed? <==> WithinLimit(q, q.nread, Concat(pieces))
    ensures Call(q, Concat(pieces)).Consumed? ==> Call(q, Concat(pieces)).events == Calls(q, pieces).events
  {
    hide Feed, FreeFeed, Inv, Calls;
    CallsFree(q, pieces);
    LimitExact(q, Concat(pieces));
  }

  predicate AllBlank(s: string) { forall i :: 0 <= i < |s| ==> s[i] == CR || s[i] == LF }

  lemma BlankByte(q: Parser, ch: char)
    requires q.state.StartReq? && (ch == CR || ch == LF)
    ensures FreeStep(q, ch) == Next(q.(nread := q.nread + 1), [])
    ensures OneByte(FreeStep(q, ch), ch) == Consumed(q.(nread := q.nread + 1), [])
  {
  }

  /** Empty lines before a request are only counted. */
  lemma {:induction false} BlankRun(q: Parser, blank: string)
    requires q.state.StartReq? && AllBlank(blank)
    ensures FreeFeed(q, blank) == Consumed(q.(nread := q.nread + |blank|), [])
    decreases |blank|
  {
    hide FreeStep;
    if blank != [] {
      BlankByte(q, blank[0]);
      BlankRun(q.(nread := q.nread + 1), blank[1..]);
    }
  }

  /** The two sides differ: two pieces that are consumed, while the buffer they make is not. */
  lemma JoinFails(q0: Parser)
    requires q0.index < 256
    ensures var q, pieces := Init(q0, Request), [Repeat(CR, MAX_HEADER_SIZE), [CR]];
            Calls(q, pieces).Consumed? && !Call(q, Concat(pieces)).Consumed?
  {
    hide Feed, FreeFeed, Init, Step, Inv;
    var q, a, b := Init(q0, Request), Repeat(CR, MAX_HEADER_SIZE), [CR];
    var pieces := [a, b];
    InitSafe(q0, Request);
    InitIs(q0);
    BlankRun(q, a);
    ShortFeed(q, a);
    var q1 := Feed(q, a).q;
    NarrowIndex(q1);
    BlankRun(Narrow(q1), b);
    ShortFeed(Narrow(q1), b);
    assert pieces[1..] == [b] && [b][1..] == [];
    assert Calls(Narrow(q1), [b]).Consumed?;
    FeedAppend(q, a, b);
    FeedOne(q1, CR);
    OverLimit(q1);
    assert Concat([b]) == b + [] == b;
    assert Concat(pieces) == a + Concat([b]);
  }

  lemma OverLimit(q: Parser)
    requires q.state.StartReq? && q.nread == MAX_HEADER_SIZE
    ensures Step(q, CR) == Error
  {
  }

  lemma InitIs(q: Parser)
    ensures Init(q, Request).state.StartReq? && Init(q, Request).nread == 0 && Init(q, Request).kind.Request?
  {
  }
}
