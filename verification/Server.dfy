/** The server as the C code has it: connections whose handlers update their fields and
    their buffer in place, and the loop that hands them the events of the kernel. */
module Server {
  import opened Transfer
  import R = Response

  /** The buffer with a text over its bytes from index `at` on. */
  function Over(buffer: string, text: string, at: nat): string
    requires at + |text| <= |buffer|
  {
    buffer[..at] + text + buffer[at + |text|..]
  }

  lemma OverIs(buffer: string, text: string, at: nat, after: string)
    requires at + |text| <= |buffer| == |after|
    requires forall i :: at <= i < at + |text| ==> after[i] == text[i - at]
    requires forall i :: 0 <= i < |buffer| && !(at <= i < at + |text|) ==> after[i] == buffer[i]
    ensures after == Over(buffer, text, at)
  {
  }

  lemma PutFirst(buffer: string, text: string)
    requires |text| <= |buffer|
    ensures Over(buffer, text, 0) == text + buffer[|text|..]
  {
  }

  lemma PutNext(buffer: string, done: string, text: string)
    requires |done + text| <= |buffer|
    ensures Over(done + buffer[|done|..], text, |done|) == done + text + buffer[|done + text|..]
  {
    var b := done + buffer[|done|..];
    assert b[..|done|] == done;
    assert b[|done| + |text|..] == buffer[|done + text|..];
  }

  /** How a handler returns. */
  datatype Status = Fine | Died | Hung | Overrun

  /** The handler did what the state machine does. */
  ghost predicate Did(o: Outcome, status: Status, after: Link) {
    match o
    case Goes(l) => status.Fine? && after == l
    case Exits => status.Died?
    case Hangs => status.Hung?
    case Overruns => status.Overrun?
  }

  predicate Given(l: Link, file: string, readData: nat, headerSize: nat, fileDimension: nat, stale: bool) {
    && l.kernel.file == file && l.conn.readData == readData && l.conn.headerSize == headerSize
    && l.conn.fileDimension == fileDimension && l.kernel.stale == stale
  }

  class Connection {
    var state: ConnState
    var sendLen: nat
    var readData: nat
    var isHeader: bool
    var headerSize: nat
    var fileDimension: nat
    const sendBuffer: array<char>
    /** What the kernel holds for the connection. */
    const file: string
    var operation: Operation
    var eventfd: bool
    var mask: Mask
    var out: string
    const stale: bool

    ghost function View(): Link
      reads this, sendBuffer
    {
      Link(Conn(state, sendLen, readData, isHeader, headerSize, fileDimension, sendBuffer[..]),
           Kernel(file, operation, eventfd, mask, out, stale))
    }

    /** `connection_create` and `handle_new_connection`; four fields hold what memory held. */
    constructor (file: string, readData: nat, headerSize: nat, fileDimension: nat, stale: bool)
      requires |file| < INT_LIMIT
      ensures fresh(sendBuffer) && Fresh(View())
      ensures Given(View(), file, readData, headerSize, fileDimension, stale)
    {
      this.file, this.readData, this.headerSize, this.fileDimension := file, readData, headerSize, fileDimension;
      this.stale := stale;
      sendBuffer := new char[BUFSIZ](_ => '\0');
      sendLen, isHeader, state := 0, false, NewConn;
      operation, eventfd, mask, out := NoOperation, false, In, [];
    }

    /** One piece of `sprintf`: the text, from index `at` on. */
    method Put(text: string, at: nat) returns (next: nat)
      requires at + |text| <= sendBuffer.Length
      modifies sendBuffer
      ensures next == at + |text|
      ensures sendBuffer[..] == Over(old(sendBuffer[..]), text, at)
    {
      next := at;
      while next < at + |text|
        invariant at <= next <= at + |text|
        invariant forall i :: at <= i < next ==> sendBuffer[i] == text[i - at]
        invariant forall i :: 0 <= i < sendBuffer.Length && !(at <= i < next) ==> sendBuffer[i] == old(sendBuffer[i])
      {
        sendBuffer[next] := text[next - at];
        next := next + 1;
      }
      OverIs(old(sendBuffer[..]), text, at, sendBuffer[..]);
    }

    /** `sprintf` with one conversion: the text before it, the number, the text after it, NUL. */
    method Format(a: string, n: string, b: string)
      requires |a + n + b| < sendBuffer.Length
      modifies sendBuffer
      ensures sendBuffer[..] == Written(old(sendBuffer[..]), a + n + b)
    {
      hide Over;
      ghost var before := sendBuffer[..];
      var i := Put(a, 0);
      PutFirst(before, a);
      var j := Put(n, i);
      PutNext(before, a, n);
      var k := Put(b, j);
      PutNext(before, a + n, b);
      var end := Put(['\0'], k);
      PutNext(before, a + n + b, ['\0']);
    }

    /** `write_http200_header`, in place. */
    method WriteHttp200Header(length: nat)
      requires |R.Http200Header(length)| < sendBuffer.Length
      modifies sendBuffer
      ensures sendBuffer[..] == Written(old(sendBuffer[..]), R.Http200Header(length))
    {
      hide BEFORE_LENGTH, AFTER_LENGTH, R.Http200Header, R.PrintDecimal;
      HeaderPieces(length);
      Format(BEFORE_LENGTH, R.PrintDecimal(length), AFTER_LENGTH);
    }

    /** `strlen(conn->send_buffer)`. */
    method StrLen() returns (n: nat)
      ensures n == Transfer.StrLen(sendBuffer[..])
    {
      n := 0;
      while n < sendBuffer.Length && sendBuffer[n] != '\0'
        invariant n <= sendBuffer.Length
        invariant Transfer.StrLen(sendBuffer[..]) == n + Transfer.StrLen(sendBuffer[n..])
      {
        assert sendBuffer[n..][1..] == sendBuffer[n + 1..];
        n := n + 1;
      }
    }

    // ----- Asynchronous operations -----

    /** Register a new eventfd, then `io_submit`. */
    method Submit(op: Operation) returns (status: Status)
      modifies this`operation, this`eventfd
      ensures Did(Transfer.Submit(old(View()), op), status, View())
    {
      if !operation.NoOperation? { return Died; }
      operation, eventfd := op, true;
      status := Fine;
    }

    method ReadData() returns (status: Status)
      modifies this`operation, this`eventfd
      ensures Did(Transfer.ReadData(old(View())), status, View())
    {
      status := Submit(ReadOp(sendLen));
    }

    method SendData() returns (status: Status)
      modifies this`operation, this`eventfd, this`isHeader
      ensures Did(Transfer.SendData(old(View())), status, View())
    {
      var n := if isHeader then headerSize else readData;
      if n > sendBuffer.Length { return Overrun; }
      isHeader := false;
      status := Submit(WriteOp(sendBuffer[..n]));
    }

    // ----- Handlers -----

    method StartHeader() returns (status: Status)
      modifies this`fileDimension, this`headerSize, this`isHeader, this`state, sendBuffer
      ensures Did(Transfer.StartHeader(old(View())), status, View())
    {
      hide R.Http200Header, Transfer.StrLen;
      var size := |file|;
      if size >= INT_LIMIT { return Died; }
      if |R.Http200Header(size)| >= sendBuffer.Length { return Overrun; }
      WriteHttp200Header(size);
      fileDimension := size;
      headerSize := StrLen();
      isHeader := true;
      state := Sending;
      status := Fine;
    }

    /** `handle_work`. */
    method HandleWork() returns (status: Status)
      modifies this, sendBuffer
      ensures Did(Transfer.HandleWork(old(View())), status, View())
    {
      hide Transfer.StartHeader, Transfer.ReadData, Transfer.SendData;
      match state {
        case DataReceived =>
          status := StartHeader();
        case Reading =>
          status := ReadData();
          if status == Fine { mask := In; }
        case Sending =>
          status := SendData();
          if status == Fine { mask := In; }
        case NewConn | ConnectionClosed =>
          status := Died;
      }
    }

    /** The kernel ends the operation: it writes into the buffer, or takes from it. */
    method Complete(res: nat)
      requires MayReturn(View(), res)
      modifies this`operation, this`out, sendBuffer
      ensures View() == Transfer.Complete(old(View()), res)
    {
      match operation {
        case ReadOp(offset) =>
          var next := Put(file[offset..offset + res], 0);
          PutFirst(old(sendBuffer[..]), file[offset..offset + res]);
          operation := Ended(res);
        case WriteOp(_) =>
          out := out + sendBuffer[..res];
          operation := Ended(res);
        case NoOperation | Ended(_) =>
      }
    }

    /** `handle_work_done`. */
    method HandleWorkDone(res: nat) returns (status: Status)
      requires MayReturn(View(), res)
      modifies this, sendBuffer
      ensures Did(Transfer.HandleWorkDone(old(View()), res), status, View())
    {
      hide Transfer.Complete;
      if !eventfd && !stale { return Died; }
      if operation.NoOperation? { return Hung; }
      EndedAfter(View(), res);
      Complete(res);
      var n := operation.res;
      operation, eventfd := NoOperation, false;
      match state {
        case Reading =>
          sendLen, readData := sendLen + n, n;
          mask := Out;
          state := Sending;
          status := Fine;
        case Sending =>
          if sendLen == fileDimension {
            mask := Unregistered;
            state := ConnectionClosed;
          } else {
            mask := Out;
            state := Reading;
          }
          status := Fine;
        case NewConn | DataReceived | ConnectionClosed =>
          status := Died;
      }
    }

    /** `handle_client_request`, for a request that is received whole. */
    method HandleClientRequest()
      modifies this`state, this`mask
      ensures Transfer.HandleClientRequest(old(View())) == Goes(View())
    {
      state, mask := DataReceived, InOut;
    }

    /** `handle_epollin`. */
    method HandleEpollin(res: nat) returns (status: Status)
      requires MayReturn(View(), res)
      modifies this, sendBuffer
      ensures Did(Transfer.HandleEpollin(old(View()), res), status, View())
    {
      hide Transfer.HandleWorkDone;
      match state {
        case NewConn =>
          HandleClientRequest();
          status := Fine;
        case _ =>
          status := HandleWorkDone(res);
      }
    }

    /** The dispatch on the kind of event. */
    method Happen(e: Occurrence) returns (status: Status)
      requires Enabled(View(), e)
      modifies this, sendBuffer
      ensures Did(Happens(old(View()), e), status, View())
    {
      hide Transfer.HandleWork, Transfer.HandleEpollin, Transfer.Complete;
      match e {
        case Writable => status := HandleWork();
        case Readable(res) => status := HandleEpollin(res);
        case Notified => status := HandleEpollin(0);
        case Ends(res) =>
          Complete(res);
          status := Fine;
      }
    }
  }

  lemma EndedAfter(l: Link, res: nat)
    requires MayReturn(l, res) && !l.kernel.operation.NoOperation?
    ensures Transfer.Complete(l, res).kernel.operation.Ended?
  {
  }

  const BEFORE_LENGTH: string := R.STATUS_LINE + ("Content-Length" + ": ")

  const AFTER_LENGTH: string :=
    "\r\n" + ("Content-Type" + ": " + "\t\tapplication/octet-stream" + "\r\n" + ("Connection" + ": " + "close" + "\r\n") + "\r\n")

  lemma RegroupPieces(a: string, b: string, n: string, c: string, d: string, e: string, f: string)
    ensures a + (b + n + c) + d + e + f == a + b + n + (c + (d + e + f))
  {
  }

  lemma HeaderPieces(length: nat)
    ensures R.Http200Header(length) == BEFORE_LENGTH + R.PrintDecimal(length) + AFTER_LENGTH
  {
    hide R.PrintDecimal, R.STATUS_LINE;
    RegroupPieces(R.STATUS_LINE, "Content-Length" + ": ", R.PrintDecimal(length), "\r\n",
            "Content-Type" + ": " + "\t\tapplication/octet-stream" + "\r\n", "Connection" + ": " + "close" + "\r\n", "\r\n");
  }

  /** The server: its connections by descriptor.  Closed ones keep their entry. */
  class Monitor {
    var conns: map<nat, Connection>
    /** The connections and their buffers. */
    ghost var Repr: set<object>

    /** No two connections share anything. */
    ghost predicate Valid()
      reads this
    {
      && (forall i :: i in conns ==> conns[i] in Repr && conns[i].sendBuffer in Repr)
      && (forall i, j :: i in conns && j in conns && i != j ==>
            conns[i] != conns[j] && conns[i].sendBuffer != conns[j].sendBuffer)
    }

    ghost function View(): Links
      requires Valid()
      reads this, Repr
    {
      map i | i in conns :: conns[i].View()
    }

    constructor ()
      ensures Valid() && conns == map[] && View() == map[] && Repr == {}
    {
      conns, Repr := map[], {};
    }

    /** `handle_new_connection`. */
    method Accept(id: nat, file: string, readData: nat, headerSize: nat, fileDimension: nat, stale: bool)
      requires Valid() && id !in conns && |file| < INT_LIMIT
      modifies this
      ensures Valid() && fresh(Repr - old(Repr))
      ensures id in View() && Fresh(View()[id]) && Given(View()[id], file, readData, headerSize, fileDimension, stale)
      ensures View() == old(View())[id := View()[id]]
    {
      hide Fresh, Given;
      var c := new Connection(file, readData, headerSize, fileDimension, stale);
      conns := conns[id := c];
      Repr := Repr + {c, c.sendBuffer};
    }

    /** One event from `epoll_wait`, handed to the connection it is about. */
    method OnEvent(id: nat, e: Occurrence) returns (status: Status)
      requires Valid() && id in conns && Enabled(conns[id].View(), e)
      modifies Repr
      ensures conns == old(conns) && Repr == old(Repr) && Valid()
      ensures Did(Happens(old(View())[id], e), status, View()[id])
      ensures View() == old(View())[id := View()[id]]
    {
      hide Happens, Enabled, Did;
      status := conns[id].Happen(e);
    }

    /** One turn of the loop in `main`. */
    method OneTurn(a: Action) returns (status: Status)
      requires Valid() && Possible(View(), a)
      modifies this, Repr
      ensures Valid() && fresh(Repr - old(Repr))
      ensures status.Fine? <==> Turn(old(View()), a).Some?
      ensures status.Fine? ==> Turn(old(View()), a).value == View()
    {
      hide Happens, Enabled, Fresh;
      match a {
        case Accepted(id, l) =>
          FreshFields(l);
          Accept(id, l.kernel.file, l.conn.readData, l.conn.headerSize, l.conn.fileDimension, l.kernel.stale);
          FreshSame(l, View()[id]);
          status := Fine;
        case Something(id, e) =>
          status := OnEvent(id, e);
      }
    }

    /** The loop in `main`, on any finite sequence of connections and events that the kernel
        may report: it is never left, and every client is served. */
    method Serve(actions: seq<Action>) returns (running: bool)
      requires Valid() && AllSound(View()) && Scheduled(View(), actions)
      modifies this, Repr
      ensures running && Valid() && Turns(old(View()), actions, View())
      ensures AllSound(View()) && forall id :: id in View() ==> Served(View()[id])
    {
      hide Turn, Turns, Scheduled, Possible, Served, AllSound, View, Valid;
      ghost var last := ServerRuns(View(), actions);
      var i := 0;
      running := true;
      while i < |actions|
        invariant 0 <= i <= |actions| && Valid() && AllSound(View()) && running
        invariant Scheduled(View(), actions[i..]) && Turns(View(), actions[i..], last)
        invariant fresh(Repr - old(Repr))
      {
        FirstTurn(View(), actions, i, last);
        TurnKeeps(View(), actions[i]);
        var status := OneTurn(actions[i]);
        if status != Fine { return false; }
        i := i + 1;
      }
      NoTurn(View(), actions[i..], last);
    }
  }

  lemma FirstTurn(s: Links, actions: seq<Action>, i: nat, last: Links)
    requires i < |actions| && Turns(s, actions[i..], last) && Scheduled(s, actions[i..])
    ensures Possible(s, actions[i]) && Turn(s, actions[i]).Some?
    ensures Turns(Turn(s, actions[i]).value, actions[i + 1..], last)
    ensures Scheduled(Turn(s, actions[i]).value, actions[i + 1..])
  {
    hide Turn, Possible;
    assert actions[i..][0] == actions[i] && actions[i..][1..] == actions[i + 1..];
  }

  lemma NoTurn(s: Links, actions: seq<Action>, last: Links)
    requires Turns(s, actions, last) && actions == []
    ensures s == last
  {
  }

  lemma FreshFields(l: Link)
    requires Fresh(l)
    ensures |l.kernel.file| < INT_LIMIT
  {
  }

  /** What is not given to a fresh connection is the same in all. */
  lemma FreshSame(l: Link, m: Link)
    requires Fresh(l) && Fresh(m) && m.kernel.file == l.kernel.file
    requires m.conn.readData == l.conn.readData && m.conn.headerSize == l.conn.headerSize
    requires m.conn.fileDimension == l.conn.fileDimension && m.kernel.stale == l.kernel.stale
    ensures m == l
  {
    assert m.conn.sendBuffer == l.conn.sendBuffer;
  }
}
