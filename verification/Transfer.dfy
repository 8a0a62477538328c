/** One connection of the server: the state machine that reads a file piece by piece and
    writes it to a socket, with at most one asynchronous operation at a time. */
module Transfer {
  import opened Syntax
  import R = Response
  import opened Split
  import opened Messages
  import M = Machine

  /** `BUFSIZ` of the C library: the size of each buffer of a connection. */
  const BUFSIZ: nat := 8192

  /** The largest size an `int` holds, plus one. */
  const INT_LIMIT: nat := 0x8000_0000

  datatype ConnState = NewConn | DataReceived | Sending | Reading | ConnectionClosed

  /** The fields of `struct connection` that the transfer uses. */
  datatype Conn = Conn(
    state: ConnState,
    sendLen: nat,
    readData: nat,
    isHeader: bool,
    headerSize: nat,
    fileDimension: nat,
    sendBuffer: string)

  /** The one operation a context of size 1 holds.  A write remembers the bytes that were in
      the buffer when it was submitted; the kernel takes those that are there when it ends. */
  datatype Operation =
    | NoOperation
    | ReadOp(offset: nat)
    | WriteOp(submitted: string)
    | Ended(res: nat)

  /** The events a socket is registered for. */
  datatype Mask = Unregistered | In | Out | InOut

  /** What the kernel holds for the connection: the file, the operation, whether the
      connection's eventfd is registered, the socket's events, the bytes the socket took.
      `stale` is whether the number left in `conn->eventfd`, when the connection has no
      eventfd, is that of another registered descriptor: the field is not initialised and
      not cleared. */
  datatype Kernel = Kernel(file: string, operation: Operation, eventfd: bool, mask: Mask, out: string, stale: bool)

  datatype Link = Link(conn: Conn, kernel: Kernel)

  /** `Exits` is `DIE`; `Hangs` waits for an operation nobody submitted; `Overruns` reads or
      writes past the buffer. */
  datatype Outcome = Goes(link: Link) | Exits | Hangs | Overruns

  // ----- Strings in the buffer -----

  /** `sprintf`: the text and its NUL, over the old bytes. */
  function Written(buffer: string, text: string): (b: string)
    requires |text| < |buffer|
    ensures |b| == |buffer|
  {
    text + ['\0'] + buffer[|text| + 1..]
  }

  /** `strlen`. */
  function StrLen(buffer: string): (n: nat)
    ensures n <= |buffer|
  {
    if buffer == [] || buffer[0] == '\0' then 0 else 1 + StrLen(buffer[1..])
  }

  lemma {:induction false} StrLenOf(text: string, rest: string)
    requires forall i :: 0 <= i < |text| ==> text[i] != '\0'
    ensures StrLen(text + ['\0'] + rest) == |text|
    decreases |text|
  {
    var s := text + ['\0'] + rest;
    if text != [] {
      assert s[1..] == text[1..] + ['\0'] + rest;
      StrLenOf(text[1..], rest);
    }
  }

  /** The buffer after a read that returned these bytes. */
  function Filled(buffer: string, bytes: string): (b: string)
    requires |bytes| <= |buffer|
    ensures |b| == |buffer|
  {
    bytes + buffer[|bytes|..]
  }

  // ----- The handlers -----

  /** `w_epoll_add_ptr_eventfd`, then `io_submit` on a context that holds one operation. */
  function Submit(l: Link, op: Operation): Outcome {
    if !l.kernel.operation.NoOperation? then Exits
    else Goes(l.(kernel := l.kernel.(operation := op, eventfd := true)))
  }

  function ReadData(l: Link): Outcome { Submit(l, ReadOp(l.conn.sendLen)) }

  function SendData(l: Link): Outcome {
    var c := l.conn;
    var n := if c.isHeader then c.headerSize else c.readData;
    if n > |c.sendBuffer| then Overruns
    else Submit(l.(conn := c.(isHeader := false)), WriteOp(c.sendBuffer[..n]))
  }

  function WithMask(o: Outcome, m: Mask): Outcome {
    match o
    case Goes(l) => Goes(l.(kernel := l.kernel.(mask := m)))
    case _ => o
  }

  /** `s_data_received`: the file exists, and its size fits an `int`. */
  function StartHeader(l: Link): Outcome {
    var size := |l.kernel.file|;
    var text := R.Http200Header(size);
    if size >= INT_LIMIT then Exits
    else if |text| >= |l.conn.sendBuffer| then Overruns
    else
      var b := Written(l.conn.sendBuffer, text);
      Goes(l.(conn := l.conn.(sendBuffer := b, fileDimension := size, headerSize := StrLen(b),
                              isHeader := true, state := Sending)))
  }

  /** `handle_work`: the socket is writable. */
  function HandleWork(l: Link): Outcome {
    match l.conn.state
    case DataReceived => StartHeader(l)
    case Reading => WithMask(ReadData(l), In)
    case Sending => WithMask(SendData(l), In)
    case _ => Exits
  }

  /** What the kernel may return: at least one byte, at most a buffer, never past the end. */
  predicate MayReturn(l: Link, res: nat) {
    match l.kernel.operation
    case ReadOp(offset) =>
      && offset <= |l.kernel.file| && 0 < res <= |l.kernel.file| - offset && res <= |l.conn.sendBuffer|
    case WriteOp(bytes) => res == |bytes| <= |l.conn.sendBuffer|
    case _ => true
  }

  /** The operation ends with result `res`. */
  function Complete(l: Link, res: nat): Link
    requires MayReturn(l, res)
  {
    var k := l.kernel.(operation := Ended(res));
    match l.kernel.operation
    case ReadOp(offset) =>
      Link(l.conn.(sendBuffer := Filled(l.conn.sendBuffer, l.kernel.file[offset..offset + res])), k)
    case WriteOp(_) => Link(l.conn, k.(out := l.kernel.out + l.conn.sendBuffer[..res]))
    case _ => l
  }

  /** `connection_remove`, after the socket left the epoll set. */
  function Remove(l: Link): Link {
    Link(l.conn.(state := ConnectionClosed), l.kernel.(mask := Unregistered))
  }

  /** `handle_work_done`: unregister the eventfd, wait until the operation has ended with
      `res` if it has not, and go on. */
  function HandleWorkDone(l: Link, res: nat): Outcome
    requires MayReturn(l, res)
  {
    if !l.kernel.eventfd && !l.kernel.stale then Exits
    else if l.kernel.operation.NoOperation? then Hangs
    else
      var l1 := Complete(l, res);
      var n := l1.kernel.operation.res;
      var k := l1.kernel.(operation := NoOperation, eventfd := false);
      match l.conn.state
      case Reading =>
        Goes(Link(l1.conn.(sendLen := l1.conn.sendLen + n, readData := n, state := Sending), k.(mask := Out)))
      case Sending =>
        if l1.conn.sendLen == l1.conn.fileDimension then Goes(Remove(Link(l1.conn, k)))
        else Goes(Link(l1.conn.(state := Reading), k.(mask := Out)))
      case _ => Exits
  }

  /** `handle_client_request`, for a request that is received whole. */
  function HandleClientRequest(l: Link): Outcome {
    Goes(Link(l.conn.(state := DataReceived), l.kernel.(mask := InOut)))
  }

  function HandleEpollin(l: Link, res: nat): Outcome
    requires MayReturn(l, res)
  {
    if l.conn.state.NewConn? then HandleClientRequest(l) else HandleWorkDone(l, res)
  }

  // ----- What can happen to a connection -----

  /** An event of the connection: `Writable` is any event of the socket with `EPOLLOUT`,
      `Readable` one of the socket without it, `Notified` one of the eventfd; `Ends` is the
      kernel's own step. */
  datatype Occurrence = Writable | Readable(res: nat) | Notified | Ends(res: nat)

  /** The events the kernel may report.  While the socket is registered for both directions,
      after the request, it is writable: every event of it then includes `EPOLLOUT`. */
  predicate Enabled(l: Link, e: Occurrence) {
    match e
    case Writable => l.kernel.mask.Out? || l.kernel.mask.InOut?
    case Readable(res) => l.kernel.mask.In? && MayReturn(l, res)
    case Notified => l.kernel.eventfd && l.kernel.operation.Ended?
    case Ends(res) => (l.kernel.operation.ReadOp? || l.kernel.operation.WriteOp?) && MayReturn(l, res)
  }

  /** The dispatch in `main`. */
  function Happens(l: Link, e: Occurrence): Outcome
    requires Enabled(l, e)
  {
    match e
    case Writable => HandleWork(l)
    case Readable(res) => HandleEpollin(l, res)
    case Notified => HandleEpollin(l, 0)
    case Ends(res) => Goes(Complete(l, res))
  }

  /** `connection_create` and `handle_new_connection`: the fields they do not set hold anything. */
  predicate Fresh(l: Link) {
    && l.conn.state.NewConn? && l.conn.sendLen == 0 && !l.conn.isHeader
    && |l.conn.sendBuffer| == BUFSIZ && (forall i :: 0 <= i < BUFSIZ ==> l.conn.sendBuffer[i] == '\0')
    && l.kernel.operation.NoOperation? && !l.kernel.eventfd && l.kernel.mask.In? && l.kernel.out == []
    && |l.kernel.file| < INT_LIMIT
  }

  // ----- The invariant -----

  function HeaderOf(l: Link): string { R.Http200Header(|l.kernel.file|) }

  /** The header and the first `n` bytes of the file. */
  function UpTo(l: Link, n: nat): string
    requires n <= |l.kernel.file|
  {
    HeaderOf(l) + l.kernel.file[..n]
  }

  /** An eventfd is registered exactly when an operation is under way, and then the socket
      is not armed for output. */
  predicate OneOperation(l: Link) {
    && (l.kernel.eventfd <==> !l.kernel.operation.NoOperation?)
    && (l.kernel.eventfd ==> l.kernel.mask.In?)
  }

  /** A write of `bytes` that is ready, under way or done: the buffer holds them until it
      is done, and the socket has taken `before`, or `before` and them. */
  predicate Passing(l: Link, bytes: string, before: string) {
    && |bytes| <= |l.conn.sendBuffer|
    && match l.kernel.operation
       case NoOperation => l.conn.sendBuffer[..|bytes|] == bytes && l.kernel.out == before
       case WriteOp(submitted) =>
         submitted == bytes && l.conn.sendBuffer[..|bytes|] == bytes && l.kernel.out == before
       case Ended(_) => l.kernel.out == before + bytes
       case ReadOp(_) => false
  }

  predicate HeaderPhase(l: Link) {
    && l.conn.headerSize == |HeaderOf(l)| && Passing(l, HeaderOf(l), [])
    && (l.conn.isHeader <==> l.kernel.operation.NoOperation?)
    && (l.kernel.operation.NoOperation? ==> l.kernel.mask.InOut?)
  }

  predicate DataPhase(l: Link) {
    var c := l.conn;
    && !c.isHeader && 0 < c.readData <= c.sendLen <= |l.kernel.file|
    && Passing(l, l.kernel.file[c.sendLen - c.readData..c.sendLen], UpTo(l, c.sendLen - c.readData))
    && (l.kernel.operation.NoOperation? ==> l.kernel.mask.Out?)
  }

  predicate ReadingPhase(l: Link) {
    var c := l.conn;
    && !c.isHeader && c.sendLen < |l.kernel.file| && l.kernel.out == UpTo(l, c.sendLen)
    && match l.kernel.operation
       case NoOperation => l.kernel.mask.Out?
       case ReadOp(offset) => offset == c.sendLen
       case Ended(res) =>
         && 0 < res <= |l.kernel.file| - c.sendLen && res <= |c.sendBuffer|
         && c.sendBuffer[..res] == l.kernel.file[c.sendLen..c.sendLen + res]
       case WriteOp(_) => false
  }

  predicate Sound(l: Link) {
    && |l.conn.sendBuffer| == BUFSIZ && |l.kernel.file| < INT_LIMIT && OneOperation(l)
    && match l.conn.state
       case NewConn => Fresh(l)
       case DataReceived =>
         && l.kernel.operation.NoOperation? && l.kernel.mask.InOut? && l.kernel.out == [] && l.conn.sendLen == 0
         && !l.conn.isHeader
       case Sending =>
         l.conn.fileDimension == |l.kernel.file| && if l.conn.sendLen == 0 then HeaderPhase(l) else DataPhase(l)
       case Reading => l.conn.fileDimension == |l.kernel.file| && ReadingPhase(l)
       case ConnectionClosed =>
         && l.kernel.operation.NoOperation? && l.kernel.mask.Unregistered?
         && l.kernel.out == UpTo(l, |l.kernel.file|)
  }

  // ----- Every step keeps it, and none leaves the program -----

  lemma HeaderFits(n: nat)
    requires n < INT_LIMIT
    ensures 0 < |R.Http200Header(n)| <= 120
    ensures forall i :: 0 <= i < |R.Http200Header(n)| ==> R.Http200Header(n)[i] != '\0'
  {
    hide R.PrintDecimal, R.STATUS_LINE;
    R.HeaderSize(n);
    R.DecimalPrints(n);
    Printable(R.PrintDecimal(n));
    StatusPrints();
    NoNulJoin("Content-Length" + ": ", R.PrintDecimal(n));
    NoNulJoin("Content-Length" + ": " + R.PrintDecimal(n), "\r\n");
    NoNulJoin(R.STATUS_LINE, "Content-Length" + ": " + R.PrintDecimal(n) + "\r\n");
    var length := R.STATUS_LINE + ("Content-Length" + ": " + R.PrintDecimal(n) + "\r\n");
    NoNulJoin(length, "Content-Type" + ": " + "\t\tapplication/octet-stream" + "\r\n");
    var typed := length + ("Content-Type" + ": " + "\t\tapplication/octet-stream" + "\r\n");
    NoNulJoin(typed, "Connection" + ": " + "close" + "\r\n");
    NoNulJoin(typed + ("Connection" + ": " + "close" + "\r\n"), "\r\n");
  }

  predicate NoNul(s: string) { forall i :: 0 <= i < |s| ==> s[i] != '\0' }

  lemma NoNulJoin(a: string, b: string)
    requires NoNul(a) && NoNul(b)
    ensures NoNul(a + b)
  {
  }

  lemma Printable(s: string)
    requires forall i :: 0 <= i < |s| ==> IsDigit(s[i])
    ensures NoNul(s)
  {
  }

  lemma StatusPrints()
    ensures NoNul(R.STATUS_LINE)
  {
  }

  lemma StartKeeps(l: Link)
    requires Sound(l) && l.conn.state.DataReceived?
    ensures StartHeader(l).Goes? && Sound(StartHeader(l).link)
  {
    hide R.Http200Header, StrLen;
    var text := HeaderOf(l);
    HeaderFits(|l.kernel.file|);
    StrLenOf(text, l.conn.sendBuffer[|text| + 1..]);
    assert Written(l.conn.sendBuffer, text)[..|text|] == text;
  }

  lemma ReadSubmits(l: Link)
    requires Sound(l) && l.conn.state.Reading? && l.kernel.operation.NoOperation?
    ensures var o := HandleWork(l); o.Goes? && Sound(o.link)
  {
    hide R.Http200Header;
  }

  lemma SendKeeps(l: Link)
    requires Sound(l) && l.conn.state.Sending? && l.kernel.operation.NoOperation?
    ensures var o := HandleWork(l); o.Goes? && Sound(o.link)
  {
    hide R.Http200Header;
  }

  lemma EndKeeps(l: Link, res: nat)
    requires Sound(l) && MayReturn(l, res) && (l.kernel.operation.ReadOp? || l.kernel.operation.WriteOp?)
    ensures Sound(Complete(l, res)) && Complete(l, res).conn.state == l.conn.state
    ensures Complete(l, res).kernel.operation == Ended(res)
  {
    hide R.Http200Header;
  }

  lemma ReadDone(l: Link)
    requires Sound(l) && l.kernel.operation.Ended? && l.conn.state.Reading?
    ensures var o := HandleWorkDone(l, 0); o.Goes? && Sound(o.link)
  {
    hide R.Http200Header;
    var c, n := l.conn, l.kernel.operation.res;
    assert l.kernel.file[c.sendLen..c.sendLen + n] == l.kernel.file[c.sendLen + n - n..c.sendLen + n];
  }

  /** When a write is done the socket has taken everything read so far. */
  lemma AllSent(l: Link)
    requires Sound(l) && l.kernel.operation.Ended? && l.conn.state.Sending?
    ensures l.conn.sendLen <= |l.kernel.file| && l.kernel.out == UpTo(l, l.conn.sendLen)
  {
    hide R.Http200Header;
    var c := l.conn;
    if c.sendLen == 0 {
      assert l.kernel.file[..0] == [];
    } else {
      assert l.kernel.file[..c.sendLen]
             == l.kernel.file[..c.sendLen - c.readData] + l.kernel.file[c.sendLen - c.readData..c.sendLen];
    }
  }

  lemma SendDone(l: Link)
    requires Sound(l) && l.kernel.operation.Ended? && l.conn.state.Sending?
    ensures var o := HandleWorkDone(l, 0); o.Goes? && Sound(o.link)
  {
    hide R.Http200Header, Passing;
    AllSent(l);
  }

  lemma DoneKeeps(l: Link)
    requires Sound(l) && l.kernel.operation.Ended?
    ensures var o := HandleWorkDone(l, 0); o.Goes? && Sound(o.link)
    ensures l.conn.state.Reading? || l.conn.state.Sending?
  {
    hide HandleWorkDone;
    if l.conn.state.Reading? { ReadDone(l); } else { SendDone(l); }
  }

  lemma DoneLater(l: Link, res: nat)
    requires Sound(l) && MayReturn(l, res) && !l.kernel.operation.NoOperation?
    ensures HandleWorkDone(l, res) == HandleWorkDone(Ending(l, res), 0)
  {
    if !l.kernel.operation.Ended? { EndKeeps(l, res); }
  }

  /** The link once its operation has ended. */
  function Ending(l: Link, res: nat): Link
    requires MayReturn(l, res)
  {
    if l.kernel.operation.Ended? then l else Complete(l, res)
  }

  /** Every event of every kind is handled: no `DIE`, no wait for an operation that was not
      submitted, no access past the buffer; and the invariant is kept. */
  lemma StepKeeps(l: Link, e: Occurrence)
    requires Sound(l) && Enabled(l, e)
    ensures Happens(l, e).Goes? && Sound(Happens(l, e).link)
  {
    hide R.Http200Header, HandleWork, HandleWorkDone, Complete, HeaderPhase, DataPhase, ReadingPhase;
    match e
    case Writable =>
      Writes(l);
      WorkKeeps(l);
    case Readable(res) =>
      if l.conn.state.NewConn? {
      } else {
        UnderWay(l);
        DoneLater(l, res);
        if !l.kernel.operation.Ended? { EndKeeps(l, res); }
        DoneKeeps(Ending(l, res));
      }
    case Notified => NotNew(l); DoneKeeps(l);
    case Ends(res) => EndKeeps(l, res);
  }

  lemma NotNew(l: Link)
    requires Sound(l) && !l.kernel.operation.NoOperation?
    ensures !l.conn.state.NewConn?
  {
  }

  /** A socket armed for output has no operation. */
  lemma Writes(l: Link)
    requires Sound(l) && (l.kernel.mask.Out? || l.kernel.mask.InOut?)
    ensures l.kernel.operation.NoOperation?
    ensures l.conn.state.DataReceived? || l.conn.state.Sending? || l.conn.state.Reading?
  {
  }

  lemma WorkKeeps(l: Link)
    requires Sound(l) && l.kernel.operation.NoOperation?
    requires l.conn.state.DataReceived? || l.conn.state.Sending? || l.conn.state.Reading?
    ensures HandleWork(l).Goes? && Sound(HandleWork(l).link)
  {
    hide StartHeader, SendData, ReadData;
    match l.conn.state
    case DataReceived => StartKeeps(l);
    case Sending => SendKeeps(l);
    case Reading => ReadSubmits(l);
  }

  /** A socket armed for input only, after the request, has an operation. */
  lemma UnderWay(l: Link)
    requires Sound(l) && l.kernel.mask.In? && !l.conn.state.NewConn?
    ensures !l.kernel.operation.NoOperation?
  {
  }

  // ----- Delivery -----

  /** In every state the socket has taken a prefix of the header and the file, and all of
      it once the connection is closed. */
  lemma Delivers(l: Link)
    requires Sound(l)
    ensures l.kernel.out <= UpTo(l, |l.kernel.file|)
    ensures l.conn.state.ConnectionClosed? ==> l.kernel.out == UpTo(l, |l.kernel.file|)
  {
    hide R.Http200Header;
    var c := l.conn;
    assert UpTo(l, |l.kernel.file|) == HeaderOf(l) + l.kernel.file;
    if c.state.Sending? && c.sendLen > 0 {
      if l.kernel.operation.Ended? { AllSent(l); }
      UpToPrefix(l, c.sendLen - c.readData);
      UpToPrefix(l, c.sendLen);
    } else if c.state.Reading? {
      UpToPrefix(l, c.sendLen);
    }
  }

  lemma UpToPrefix(l: Link, n: nat)
    requires n <= |l.kernel.file|
    ensures UpTo(l, n) <= UpTo(l, |l.kernel.file|)
  {
    hide R.Http200Header;
    assert l.kernel.file[..n] <= l.kernel.file[..|l.kernel.file|];
  }

  /** The connection is closed exactly when the last write has sent everything. */
  lemma ClosesExactly(l: Link)
    requires Sound(l) && l.kernel.operation.Ended?
    ensures var o := HandleWorkDone(l, 0);
            o.Goes? && (o.link.conn.state.ConnectionClosed? <==> l.kernel.out == UpTo(l, |l.kernel.file|))
  {
    hide R.Http200Header;
    DoneKeeps(l);
    if l.conn.state.Sending? { AllSent(l); }
  }

  /** The buffer is not overwritten while a write from it is under way: the next step of the
      connection, whatever it is, ends the write, and the socket takes what was submitted. */
  lemma BufferKept(l: Link, e: Occurrence)
    requires Sound(l) && Enabled(l, e) && l.kernel.operation.WriteOp?
    ensures var l1 := Happens(l, e).link;
            && Happens(l, e).Goes? && l1.conn.sendBuffer == l.conn.sendBuffer
            && l1.kernel.out == l.kernel.out + l.kernel.operation.submitted
  {
    hide R.Http200Header;
  }

  // ----- Termination -----

  function Place(l: Link): nat {
    var k := l.kernel.operation;
    match l.conn.state
    case NewConn => 8
    case DataReceived => 7
    case Sending => if k.NoOperation? then 6 else if k.Ended? then 4 else 5
    case Reading => if k.NoOperation? then 3 else if k.Ended? then 1 else 2
    case ConnectionClosed => 0
  }

  /** The bytes that are still to be read, then the place in the round. */
  function Measure(l: Link): nat
    requires Sound(l)
  {
    hide R.Http200Header;
    if l.conn.state.ConnectionClosed? then 0 else 9 * (|l.kernel.file| - SentSoFar(l)) + Place(l)
  }

  function SentSoFar(l: Link): (n: nat)
    requires Sound(l)
    ensures n <= |l.kernel.file|
  {
    hide R.Http200Header;
    if l.conn.state.ConnectionClosed? then |l.kernel.file| else l.conn.sendLen
  }

  /** Every step of a connection brings it nearer to its end. */
  lemma MeasureDrops(l: Link, e: Occurrence)
    requires Sound(l) && Enabled(l, e)
    ensures Happens(l, e).Goes? && Sound(Happens(l, e).link)
    ensures Measure(Happens(l, e).link) < Measure(l)
  {
    hide R.Http200Header, Passing, HandleWork, HandleWorkDone;
    StepKeeps(l, e);
    match e
    case Writable => Writes(l); WorkDrops(l);
    case Readable(res) =>
      if !l.conn.state.NewConn? {
        UnderWay(l);
        DoneLater(l, res);
        if !l.kernel.operation.Ended? { EndKeeps(l, res); EndDrops(l, res); }
        DoneDrops(Ending(l, res));
      }
    case Notified => NotNew(l); DoneDrops(l);
    case Ends(res) => EndDrops(l, res);
  }

  lemma WorkDrops(l: Link)
    requires Sound(l) && l.kernel.operation.NoOperation?
    requires l.conn.state.DataReceived? || l.conn.state.Sending? || l.conn.state.Reading?
    requires HandleWork(l).Goes? && Sound(HandleWork(l).link)
    ensures Measure(HandleWork(l).link) < Measure(l)
  {
    hide R.Http200Header, Passing, Sound;
  }

  lemma EndDrops(l: Link, res: nat)
    requires Sound(l) && MayReturn(l, res) && (l.kernel.operation.ReadOp? || l.kernel.operation.WriteOp?)
    requires Sound(Complete(l, res))
    ensures Measure(Complete(l, res)) < Measure(l)
  {
    hide R.Http200Header, Passing;
  }

  lemma DoneDrops(l: Link)
    requires Sound(l) && l.kernel.operation.Ended?
    ensures var o := HandleWorkDone(l, 0); o.Goes? && Sound(o.link) && Measure(o.link) < Measure(l)
  {
    hide R.Http200Header, Passing;
    DoneKeeps(l);
  }

  /** A connection that is not closed can always go on. */
  lemma NeverStuck(l: Link)
    requires Sound(l) && !l.conn.state.ConnectionClosed?
    ensures exists e :: Enabled(l, e)
  {
    hide R.Http200Header;
    match l.kernel.operation
    case NoOperation =>
      if l.conn.state.NewConn? { assert Enabled(l, Readable(0)); } else { assert Enabled(l, Writable); }
    case ReadOp(_) => assert Enabled(l, Ends(1));
    case WriteOp(bytes) => assert Enabled(l, Ends(|bytes|));
    case Ended(_) => assert Enabled(l, Notified);
  }

  // ----- Runs of one connection -----

  /** The events `es`, in this order, take `l` to `l1`. */
  predicate History(l: Link, es: seq<Occurrence>, l1: Link)
    decreases |es|
  {
    if es == [] then l1 == l
    else Enabled(l, es[0]) && Happens(l, es[0]).Goes? && History(Happens(l, es[0]).link, es[1..], l1)
  }

  /** Over every run, with any sizes of the reads: the file stays what it was, the socket
      takes a prefix of the header and the file, all of it when the connection closes, and
      the run is no longer than its measure. */
  lemma {:induction false} RunDelivers(l: Link, es: seq<Occurrence>, l1: Link)
    requires Sound(l) && History(l, es, l1)
    ensures Sound(l1) && l1.kernel.file == l.kernel.file && |es| + Measure(l1) <= Measure(l)
    ensures l1.kernel.out <= UpTo(l, |l.kernel.file|)
    ensures l1.conn.state.ConnectionClosed? ==> l1.kernel.out == UpTo(l, |l.kernel.file|)
    decreases |es|
  {
    hide Sound, Happens, Enabled, Measure, R.Http200Header;
    if es == [] {
      Delivers(l);
    } else {
      MeasureDrops(l, es[0]);
      SameFile(l, es[0]);
      RunDelivers(Happens(l, es[0]).link, es[1..], l1);
    }
  }

  lemma SameFile(l: Link, e: Occurrence)
    requires Sound(l) && Enabled(l, e) && Happens(l, e).Goes?
    ensures Happens(l, e).link.kernel.file == l.kernel.file
  {
    hide R.Http200Header, Sound;
  }

  lemma OnlyClosedEnds(l: Link)
    requires Sound(l)
    ensures (forall e :: !Enabled(l, e)) <==> l.conn.state.ConnectionClosed?
  {
    if l.conn.state.ConnectionClosed? {
      forall e ensures !Enabled(l, e) { ClosedIsStill(l, e); }
    } else {
      NeverStuck(l);
    }
  }

  lemma ClosedIsStill(l: Link, e: Occurrence)
    requires Sound(l) && l.conn.state.ConnectionClosed?
    ensures !Enabled(l, e)
  {
    hide R.Http200Header;
  }

  /** Every served connection closes, an empty file included, whatever happens: no run is
      longer than its measure, and a run has come to its end exactly when the connection is
      closed. */
  lemma Terminates(l: Link, es: seq<Occurrence>, l1: Link)
    requires Sound(l) && History(l, es, l1)
    ensures |es| <= Measure(l)
    ensures (forall e :: !Enabled(l1, e)) <==> l1.conn.state.ConnectionClosed?
  {
    hide Sound, Happens, Enabled, History, Measure;
    RunDelivers(l, es, l1);
    OnlyClosedEnds(l1);
  }

  /** From every state some run closes the connection. */
  lemma {:induction false} CanClose(l: Link) returns (es: seq<Occurrence>, l1: Link)
    requires Sound(l)
    ensures History(l, es, l1) && l1.conn.state.ConnectionClosed?
    decreases Measure(l)
  {
    hide Sound, Happens, Enabled, R.Http200Header;
    if l.conn.state.ConnectionClosed? {
      es, l1 := [], l;
    } else {
      NeverStuck(l);
      var e :| Enabled(l, e);
      MeasureDrops(l, e);
      var rest;
      rest, l1 := CanClose(Happens(l, e).link);
      es := [e] + rest;
      assert es[1..] == rest;
    }
  }

  lemma FreshKeeps(l: Link)
    requires Fresh(l)
    ensures Sound(l)
  {
  }

  /** The served file comes back: for every connection, every order of events and every
      size of the reads, what the socket of a closed connection has taken, cut up in any way
      and parsed as a response by any parser, is one message with the file as its body. */
  lemma ServedAndParsed(l: Link, es: seq<Occurrence>, l1: Link, q: M.Parser, pieces: seq<string>)
    requires Fresh(l) && History(l, es, l1) && l1.conn.state.ConnectionClosed?
    requires q.index < 256
    requires Concat(pieces) == l1.kernel.out && forall i :: 0 <= i < |pieces| ==> pieces[i] != []
    ensures var r := Calls(M.Init(q, M.Response), pieces);
            && r.Consumed? && r.q.state.Dead?
            && Collect(NO_MESSAGES, r.events) == Inbox([R.ServedMessage(l.kernel.file)], EMPTY)
  {
    hide Sound, History, R.Http200Header, R.ServedMessage, Calls, Concat, Measure, M.Init;
    FreshKeeps(l);
    RunDelivers(l, es, l1);
    assert l.kernel.file[..|l.kernel.file|] == l.kernel.file;
    R.ServedFile(q, l.kernel.file, pieces);
  }

  // ----- Any number of connections -----

  /** A connection is accepted, or something happens to one. */
  datatype Action = Accepted(id: nat, link: Link) | Something(id: nat, event: Occurrence)

  type Links = map<nat, Link>

  predicate Possible(s: Links, a: Action) {
    match a
    case Accepted(id, l) => id !in s && Fresh(l)
    case Something(id, e) => id in s && Enabled(s[id], e)
  }

  /** One turn of the loop in `main`; `None` leaves the program. */
  function Turn(s: Links, a: Action): (o: Option<Links>)
    requires Possible(s, a)
  {
    match a
    case Accepted(id, l) => Some(s[id := l])
    case Something(id, e) => match Happens(s[id], e) case Goes(l) => Some(s[id := l]) case _ => None
  }

  predicate AllSound(s: Links) { forall id :: id in s ==> Sound(s[id]) }

  predicate Turns(s: Links, actions: seq<Action>, s1: Links)
    decreases |actions|
  {
    if actions == [] then s1 == s
    else Possible(s, actions[0]) && Turn(s, actions[0]).Some? && Turns(Turn(s, actions[0]).value, actions[1..], s1)
  }

  /** The kernel reports only what it may, for as long as the program runs. */
  predicate Scheduled(s: Links, actions: seq<Action>)
    decreases |actions|
  {
    actions == [] ||
    (&& Possible(s, actions[0])
     && (Turn(s, actions[0]).Some? ==> Scheduled(Turn(s, actions[0]).value, actions[1..])))
  }

  /** One turn never leaves the program, keeps the invariant of every connection, and
      changes only the connection it is about. */
  lemma TurnKeeps(s: Links, a: Action)
    requires AllSound(s) && Possible(s, a)
    ensures Turn(s, a).Some? && AllSound(Turn(s, a).value)
    ensures forall id :: id in s && id != a.id ==> id in Turn(s, a).value && Turn(s, a).value[id] == s[id]
  {
    hide Sound, Happens, Enabled, Fresh;
    match a
    case Accepted(id, l) => FreshKeeps(l);
    case Something(id, e) => StepKeeps(s[id], e);
  }

  /** The events of one connection among the actions of the server. */
  function About(actions: seq<Action>, id: nat): seq<Occurrence> {
    if actions == [] then []
    else (if actions[0].Something? && actions[0].id == id then [actions[0].event] else []) + About(actions[1..], id)
  }

  /** What happens to one connection among others is what happens to it alone. */
  lemma {:induction false} Projects(s: Links, actions: seq<Action>, s1: Links, id: nat)
    requires AllSound(s) && id in s && Turns(s, actions, s1)
    ensures id in s1 && History(s[id], About(actions, id), s1[id])
    decreases |actions|
  {
    hide Sound, Happens, Enabled, Fresh;
    if actions != [] {
      var a := actions[0];
      TurnKeeps(s, a);
      var s2 := Turn(s, a).value;
      Projects(s2, actions[1..], s1, id);
      var rest := About(actions[1..], id);
      if a.Something? && a.id == id {
        assert ([a.event] + rest)[1..] == rest;
      } else {
        assert [] + rest == rest;
      }
    }
  }

  /** The assumption on the window after the request is needed: a socket event without
      `EPOLLOUT` is survived exactly when the socket is registered for input only.  If not,
      what happens depends on the number that is left in `conn->eventfd`. */
  lemma ReadableExactly(l: Link, res: nat)
    requires Sound(l) && MayReturn(l, res) && !l.conn.state.ConnectionClosed?
    ensures HandleEpollin(l, res).Goes? <==> l.kernel.mask.In?
    ensures !l.kernel.mask.In? ==> HandleEpollin(l, res) == if l.kernel.stale then Hangs else Exits
  {
    hide R.Http200Header, Complete;
    if l.kernel.mask.In? {
      StepKeeps(l, Readable(res));
    }
  }

  /** The window is there for every client: its request, and then such an event, stop the
      server. */
  lemma WindowStops(l: Link, res: nat)
    requires Fresh(l)
    ensures Enabled(l, Readable(0)) && Happens(l, Readable(0)).Goes?
    ensures var l1 := Happens(l, Readable(0)).link;
            && MayReturn(l1, res) && l1.kernel.mask.InOut?
            && HandleEpollin(l1, res) == if l.kernel.stale then Hangs else Exits
  {
    hide R.Http200Header;
    FreshKeeps(l);
    StepKeeps(l, Readable(0));
    ReadableExactly(Happens(l, Readable(0)).link, res);
  }

  /** For any number of connections and any order of the events the kernel may report: the
      server is never left, each connection has at most one operation, its eventfd is
      registered exactly then, its socket is not armed for output meanwhile, and its client
      has a prefix of its file. */
  lemma {:induction false} ServerRuns(s: Links, actions: seq<Action>) returns (s1: Links)
    requires AllSound(s) && Scheduled(s, actions)
    ensures Turns(s, actions, s1) && AllSound(s1)
    ensures forall id :: id in s1 ==> Served(s1[id])
    decreases |actions|
  {
    hide Sound, Turn, Possible, Served;
    if actions == [] {
      s1 := s;
      forall id | id in s1 ensures Served(s1[id]) { SoundServes(s1[id]); }
    } else {
      TurnKeeps(s, actions[0]);
      s1 := ServerRuns(Turn(s, actions[0]).value, actions[1..]);
    }
  }

  predicate Served(l: Link) {
    && OneOperation(l) && l.kernel.out <= UpTo(l, |l.kernel.file|)
    && (l.conn.state.ConnectionClosed? ==> l.kernel.out == UpTo(l, |l.kernel.file|))
  }

  lemma SoundServes(l: Link)
    requires Sound(l)
    ensures Served(l)
  {
    hide R.Http200Header;
    Delivers(l);
  }
}
