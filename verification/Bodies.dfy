/** Body bytes are taken in bulk: one jump of the loop is the byte-by-byte run, and
    the length that is left plus what was delivered is the length that was declared. */
module Bodies {
  import opened Syntax
  import opened Machine
  import opened Messages
  import opened Marks

  /** The parser after `n` bytes of an identity body. */
  function AfterIdentity(q: Parser, n: nat): Parser
    requires n <= q.contentLength
  {
    var q1 := q.(contentLength := q.contentLength - n);
    if q1.contentLength == 0 then q1.(state := NewMessage(q1)) else q1
  }

  /** The parser after `n` bytes of a chunk. */
  function AfterChunkData(q: Parser, n: nat): Parser
    requires n <= q.contentLength
  {
    q.(contentLength := q.contentLength - n,
       state := if n == q.contentLength then ChunkDataAlmostDone else ChunkData)
  }

  lemma BodyTwice(x: Inbox, a: string, b: string)
    ensures Receive(Receive(x, BodyData(a)), BodyData(b)) == Receive(x, BodyData(a + b))
  {
    assert x.cur.body + a + b == x.cur.body + (a + b);
  }

  lemma BodySignals(ch: char)
    ensures SignalEvents([BodyByte], ch) == [BodyData([ch])]
    ensures SignalEvents([BodyByte, MessageComplete], ch) == [BodyData([ch]), Complete]
    ensures OpenEvents([], ch) == []
  {
    assert [BodyByte, MessageComplete][1..] == [MessageComplete] && [MessageComplete][1..] == [];
    assert [BodyByte][1..] == [];
  }

  lemma NewMessageState(q: Parser)
    ensures var s := NewMessage(q); (s.Dead? || s.StartReq? || s.StartRes?) && Open(s) == []
  {
  }

  lemma IdentityAgain(q: Parser, n: nat)
    requires q.state.BodyIdentity? && 0 < n < q.contentLength
    ensures AfterIdentity(q, 1) == q.(contentLength := q.contentLength - 1)
    ensures AfterIdentity(AfterIdentity(q, 1), n) == AfterIdentity(q, n + 1)
  {
  }

  lemma IdentityStep(q: Parser, ch: char)
    requires q.state.BodyIdentity? && q.contentLength > 0
    ensures Step(q, ch) == Next(AfterIdentity(q, 1), if q.contentLength == 1 then [BodyByte, MessageComplete] else [BodyByte])
    ensures OneByte(Step(q, ch), ch) ==
            Consumed(AfterIdentity(q, 1),
                     if q.contentLength == 1 then [BodyData([ch]), Complete] else [BodyData([ch])])
  {
    hide NewMessage, OpenEvents, SignalEvents;
    BodySignals(ch);
    NewMessageState(q.(contentLength := q.contentLength - 1));
    assert [BodyData([ch])] + [] == [BodyData([ch])];
    assert [BodyData([ch]), Complete] + [] == [BodyData([ch]), Complete];
  }

  lemma ChunkDataStep(q: Parser, ch: char)
    requires q.state.ChunkData? && q.flags.chunked && 0 < q.contentLength < SIGN_LIMIT
    ensures OneByte(Step(q, ch), ch) == Consumed(AfterChunkData(q, 1), [BodyData([ch])])
  {
    hide OpenEvents, SignalEvents;
    BodySignals(ch);
    assert [BodyData([ch])] + [] == [BodyData([ch])];
  }

  /** Identity body: conservation, and completion exactly at the last byte. */
  lemma {:induction false} IdentityRun(q: Parser, s: string, x: Inbox)
    requires q.state.BodyIdentity? && 0 < |s| <= q.contentLength
    ensures Feed(q, s).Consumed? && Feed(q, s).q == AfterIdentity(q, |s|)
    ensures var y := Receive(x, BodyData(s));
            Collect(x, Feed(q, s).events) == if |s| == q.contentLength then Receive(y, Complete) else y
    decreases |s|
  {
    hide Step, AfterIdentity;
    IdentityStep(q, s[0]);
    var one := OneByte(Step(q, s[0]), s[0]);
    var rest := s[1..];
    assert [s[0]] + rest == s;
    Collect1(x, BodyData([s[0]]));
    Collect2(x, BodyData([s[0]]), Complete);
    if rest == [] {
      assert s == [s[0]];
      assert one.events + [] == one.events;
      assert Feed(one.q, rest) == Consumed(one.q, []);
      assert Feed(q, s) == Consumed(one.q, one.events);
    } else {
      IdentityAgain(q, |rest|);
      IdentityRun(one.q, rest, Receive(x, BodyData([s[0]])));
      CollectAppend(x, one.events, Feed(one.q, rest).events);
      BodyTwice(x, [s[0]], rest);
    }
  }

  /** Chunk data: conservation; the chunk ends exactly at its last byte. */
  lemma {:induction false} ChunkDataRun(q: Parser, s: string, x: Inbox)
    requires q.state.ChunkData? && q.flags.chunked && 0 < |s| <= q.contentLength < SIGN_LIMIT
    ensures Feed(q, s).Consumed? && Feed(q, s).q == AfterChunkData(q, |s|)
    ensures Collect(x, Feed(q, s).events) == Receive(x, BodyData(s))
    decreases |s|
  {
    hide Step;
    ChunkDataStep(q, s[0]);
    var one := OneByte(Step(q, s[0]), s[0]);
    var rest := s[1..];
    assert [s[0]] + rest == s;
    Collect1(x, BodyData([s[0]]));
    if rest == [] {
      assert one.events + [] == one.events;
    } else {
      var x1 := Receive(x, BodyData([s[0]]));
      ChunkDataRun(one.q, rest, x1);
      CollectAppend(x, one.events, Feed(one.q, rest).events);
      BodyTwice(x, [s[0]], rest);
    }
  }
}
