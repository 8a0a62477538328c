/** How the server learns what is asked for: the URL callback copies into a buffer that
    was zeroed once, and the buffer is then read as a C string. */
module Receive {
  import opened Syntax
  import M = Machine
  import opened Messages
  import opened Invariant
  import opened Independence
  import opened Protocol
  import opened Targets
  import opened UrlCalls
  import opened TargetText
  import Methods
  import opened Delivery
  import opened Marks
  import Frames
  import opened Split
  import H = HttpParser
  import Transfer
  import Server
  import Q = Request
  import opened Framing
  import opened HeaderLines
  import R = Response
  import Chunked
  import Bodies

  const BUFSIZ := Transfer.BUFSIZ

  // ----- Strings in a zeroed buffer -----

  function Zeros(n: nat): string { seq(n, i requires 0 <= i < n => '\0') }

  /** The bytes before the first NUL. */
  function CString(buffer: string): string { buffer[..Transfer.StrLen(buffer)] }

  predicate CopyFits(us: seq<string>, n: nat) {
    forall i :: 0 <= i < |us| ==> |us[i]| < n && Transfer.NoNul(us[i])
  }

  /** Each text over the one before. */
  function Overlay(us: seq<string>): string
    decreases |us|
  {
    if us == [] then []
    else
      var before, u := Overlay(us[..|us| - 1]), us[|us| - 1];
      if |before| > |u| then u + before[|u|..] else u
  }

  function Longest(us: seq<string>): nat {
    if us == [] then 0
    else
      var n := Longest(us[..|us| - 1]);
      if |us[|us| - 1]| > n then |us[|us| - 1]| else n
  }

  lemma {:induction false} OverlayLength(us: seq<string>)
    ensures |Overlay(us)| == Longest(us)
    decreases |us|
  {
    if us != [] { OverlayLength(us[..|us| - 1]); }
  }

  lemma {:induction false} LongestIs(us: seq<string>)
    ensures forall i :: 0 <= i < |us| ==> |us[i]| <= Longest(us)
    ensures us != [] ==> exists i :: 0 <= i < |us| && |us[i]| == Longest(us)
    ensures us == [] ==> Longest(us) == 0
    decreases |us|
  {
    if us != [] {
      var before := us[..|us| - 1];
      LongestIs(before);
      forall i | 0 <= i < |us| ensures |us[i]| <= Longest(us) {
        if i < |us| - 1 { assert us[i] == before[i]; }
      }
      if before != [] {
        var i :| 0 <= i < |before| && |before[i]| == Longest(before);
        assert us[i] == before[i];
      }
      assert |us[|us| - 1]| == Longest(us) || Longest(us) == Longest(before);
    }
  }

  /** The last text is what is left exactly when no earlier one is longer. */
  lemma OverlayLast(us: seq<string>)
    requires us != []
    ensures Overlay(us) == us[|us| - 1] <==> forall i :: 0 <= i < |us| ==> |us[i]| <= |us[|us| - 1]|
  {
    var before, u := us[..|us| - 1], us[|us| - 1];
    OverlayLength(before);
    LongestIs(before);
    assert forall i :: 0 <= i < |before| ==> us[i] == before[i];
    if Longest(before) > |u| {
      var i :| 0 <= i < |before| && |before[i]| == Longest(before);
      assert |us[i]| > |u|;
    }
  }

  lemma OverlayOne(u: string)
    ensures Overlay([u]) == u
  {
    assert [u][..0] == [];
  }

  /** The buffer after the copies. */
  function Copied(us: seq<string>, n: nat): (b: string)
    requires forall i :: 0 <= i < |us| ==> |us[i]| <= n
    ensures |b| == n
    decreases |us|
  {
    if us == [] then Zeros(n) else Server.Over(Copied(us[..|us| - 1], n), us[|us| - 1], 0)
  }

  lemma OverZeros(o: string, u: string, n: nat)
    requires |o| < n && |u| < n
    ensures Server.Over(o + Zeros(n - |o|), u, 0) ==
            if |o| > |u| then u + o[|u|..] + Zeros(n - |o|) else u + Zeros(n - |u|)
  {
    var b := o + Zeros(n - |o|);
    assert Server.Over(b, u, 0) == u + b[|u|..];
    if |o| > |u| {
      assert b[|u|..] == o[|u|..] + Zeros(n - |o|);
    } else {
      assert b[|u|..] == Zeros(n - |u|);
    }
  }

  lemma {:induction false} CopiedIs(us: seq<string>, n: nat)
    requires CopyFits(us, n) && n > 0
    ensures Transfer.NoNul(Overlay(us)) && |Overlay(us)| < n
    ensures Copied(us, n) == Overlay(us) + Zeros(n - |Overlay(us)|)
    decreases |us|
  {
    hide Server.Over, Zeros;
    if us == [] {
      assert Zeros(n) == [] + Zeros(n);
    } else {
      CopiedIs(us[..|us| - 1], n);
      OverZeros(Overlay(us[..|us| - 1]), us[|us| - 1], n);
    }
  }

  lemma CopiedString(us: seq<string>, n: nat)
    requires CopyFits(us, n) && n > 0
    ensures CString(Copied(us, n)) == Overlay(us)
  {
    CopiedIs(us, n);
    var o := Overlay(us);
    Transfer.StrLenOf(o, Zeros(n - |o| - 1));
    assert Copied(us, n) == o + ['\0'] + Zeros(n - |o| - 1);
  }

  // ----- One request in the buffer -----

  lemma {:induction false} RepeatNoNul(ch: char, n: nat)
    requires ch != '\0'
    ensures Transfer.NoNul(Repeat(ch, n))
  {
  }

  /** No URL the parser reports holds a NUL. */
  lemma TargetNoNul(t: Target)
    requires TargetOk(t)
    ensures Transfer.NoNul(Text(t))
  {
    PiecesNoNul(t);
    RepeatNoNul('?', t.marks);
    RepeatNoNul('#', t.hashes);
    Transfer.NoNulJoin(t.authority, t.path);
    Transfer.NoNulJoin(t.authority + t.path, Repeat('?', t.marks));
    Transfer.NoNulJoin(t.authority + t.path + Repeat('?', t.marks), t.query);
    Transfer.NoNulJoin(t.authority + t.path + Repeat('?', t.marks) + t.query, Repeat('#', t.hashes));
    Transfer.NoNulJoin(t.authority + t.path + Repeat('?', t.marks) + t.query + Repeat('#', t.hashes), t.fragment);
  }

  lemma PiecesNoNul(t: Target)
    requires TargetOk(t)
    ensures Transfer.NoNul(t.authority) && Transfer.NoNul(t.path) && Transfer.NoNul(t.query) && Transfer.NoNul(t.fragment)
  {
  }

  lemma SoFarNoNul(s: M.State, m: Message)
    requires SoFar(s, m)
    ensures Transfer.NoNul(m.url)
  {
    hide Text;
    var t :| ReadTo(s, t) && Reports(m, t);
    ReadOk(s, t);
    TargetNoNul(t);
  }

  lemma DecomposedNoNul(m: Message)
    requires Decomposed(m)
    ensures Transfer.NoNul(m.url)
  {
    hide Text;
    var t :| TargetOk(t) && Reports(m, t);
    TargetNoNul(t);
  }

  predicate AllNoNul(us: seq<string>) { forall i :: 0 <= i < |us| ==> Transfer.NoNul(us[i]) }

  lemma UrlsNoNul(q: M.Parser, x: Inbox)
    requires AllDecomposed(q.state, x)
    ensures AllNoNul(AllDue(q, x)) && AllNoNul(Due(q, x)) && AllNoNul(UrlsOf(x.done) + [x.cur.url])
  {
    hide Decomposed, SoFar, Early, InTarget, Transfer.NoNul;
    SoFarNoNul(q.state, x.cur);
    forall i | 0 <= i < |x.done| ensures Transfer.NoNul(x.done[i].url) { DecomposedNoNul(x.done[i]); }
  }

  /** No URL that is told holds a NUL. */
  lemma AskedNoNul(q0: M.Parser, data: string)
    requires q0.index < 256
    ensures AllNoNul(Asked(M.Init(q0, M.Request), data))
  {
    hide Feed, FreeFeed, M.Init, Collect, AllDecomposed, AllNoNul, AllDue, Due, UrlsOf;
    var q, x := M.Init(q0, M.Request), NO_MESSAGES;
    InitSafe(q0, M.Request);
    StartDecomposed(q0, M.Request);
    var r := Feed(q, data);
    if r.Stopped? { StopAsked(q, x, data); }
    var s := if r.Consumed? then data else data[..r.at];
    LimitExact(q, s);
    RunDecomposed(q, x, s);
    UrlsNoNul(Feed(q, s).q, Collect(x, Feed(q, s).events));
  }

  // ----- One request in the buffer -----

  /** Target extraction: for every buffer from which one URL is told, however the run ends,
      the buffer begins with a request line, and what is kept is the text in it, if that is
      shorter than the path buffer. */
  lemma TargetExtracted(q0: M.Parser, data: string)
    returns (blank: string, w: string, m: M.Method, spaces: string, u: string, rest: string)
    requires q0.index < 256 && |Asked(M.Init(q0, M.Request), data)| == 1
    ensures LineParts(blank, w, m, spaces, u, rest) && data == BeforeTarget(blank, w, spaces) + (u + rest)
    ensures Overlay(Asked(M.Init(q0, M.Request), data)) == u
    ensures Short(Asked(M.Init(q0, M.Request), data)) <==> |u| < BUFSIZ
  {
    hide Asked, M.Init, LineParts, BeforeTarget;
    blank, w, m, spaces, u, rest := HasLine(q0, data);
    OverlayOne(u);
    assert Asked(M.Init(q0, M.Request), data) == [u];
  }

  /** A buffer with one request is such a buffer: when the application is told of one message,
      it is told of one URL, if the line is read to the end of the target. */
  lemma OneRequest(q0: M.Parser, blank: string, w: string, m: M.Method, spaces: string, u: string, rest: string)
    requires q0.index < 256 && LineParts(blank, w, m, spaces, u, rest)
    requires var before := BeforeTarget(blank, w, spaces);
             var r := Feed(M.Init(q0, M.Request), before + (u + rest));
             && (r.Consumed? || r.at > |before| + |u|)
             && Begun(Collect(NO_MESSAGES, r.events)) == 1
    ensures Asked(M.Init(q0, M.Request), BeforeTarget(blank, w, spaces) + (u + rest)) == [u]
  {
    hide Asked, M.Init, LineParts, BeforeTarget, Feed, Begun, Collect;
    FirstTarget(q0, blank, w, m, spaces, u, rest);
    AskedOnce(q0, BeforeTarget(blank, w, spaces) + (u + rest));
  }

  /** A URL that begins with a slash and has neither '?' nor '#' is the path that is reported. */
  lemma PathReported(m: Message)
    requires Decomposed(m) && m.url != [] && m.url[0] == '/' && '?' !in m.url && '#' !in m.url
    ensures m.path == m.url
  {
    hide TargetOk, Text;
    var t :| TargetOk(t) && Reports(m, t);
    PathOnly(t);
  }

  lemma TextHolds(t: Target)
    ensures t.authority != [] ==> Text(t) != [] && Text(t)[0] == t.authority[0]
    ensures t.marks > 0 ==> '?' in Text(t)
    ensures t.hashes > 0 ==> '#' in Text(t)
  {
    var before := t.authority + t.path;
    var more := before + Repeat('?', t.marks) + t.query;
    if t.marks > 0 { assert Text(t)[|before|] == '?'; }
    if t.hashes > 0 { assert Text(t)[|more|] == '#'; }
  }

  lemma PathOnly(t: Target)
    requires TargetOk(t) && Text(t) != [] && Text(t)[0] == '/' && '?' !in Text(t) && '#' !in Text(t)
    ensures Text(t) == t.path
  {
    TextHolds(t);
    assert t.authority == [] && t.query == [] && t.fragment == [];
    assert Repeat('?', 0) == [] && Repeat('#', 0) == [];
    assert [] + t.path == t.path;
  }

  // ----- Several requests in the buffer -----

  lemma {:induction false} KeepsUrl(m: Message, hs: seq<HeaderLine>)
    ensures WithLines(m, hs).url == m.url
    decreases |hs|
  {
    if hs != [] { KeepsUrl(WithLine(m, hs[0]), hs[1..]); }
  }

  function Texts(rs: seq<Q.Sent>): seq<string> { seq(|rs|, i requires 0 <= i < |rs| => Text(rs[i].line.target)) }

  lemma SentUrl(r: Q.Sent)
    requires Q.SentOk(r)
    ensures Q.MessageOf(r).url == Text(r.line.target)
  {
    hide LinesFields, Q.RequestOk, LineOk, BodyOk, Text, Q.Keeps, WithLines;
    var m := Q.WithTarget(R.Began(EMPTY), r.line.target);
    KeepsUrl(m, r.headers);
    var asked := Q.Asked(r.line, r.headers, EMPTY);
    if r.body.InChunks? { KeepsUrl(Chunked.WithBody(asked, Chunked.DataOf(r.body.chunks)), r.body.trailers); }
  }

  lemma {:induction false} SentUrls(n: nat, rs: seq<Q.Sent>)
    requires Q.AllSent(n, rs)
    ensures UrlsOf(Q.MessagesOf(n, rs)) == Texts(rs)
    decreases |rs|
  {
    hide Q.SentOk, Q.MessageOf, Text, Q.AllSent, Q.MessagesOf, Q.HeadSize, Carried, Q.PrintAll, Q.CarriedBy;
    if rs == [] {
      Q.NoneSent(n);
    } else {
      Q.NextSent(n, rs);
      SentUrl(rs[0]);
      var k := Carried(rs[0].body);
      SentUrls(k, rs[1..]);
      assert Texts(rs) == [Text(rs[0].line.target)] + Texts(rs[1..]);
      UrlsOfCons(Q.MessageOf(rs[0]), Q.MessagesOf(k, rs[1..]));
    }
  }

  lemma UrlsOfCons(m: Message, ms: seq<Message>)
    ensures UrlsOf([m] + ms) == [m.url] + UrlsOf(ms)
  {
  }

  /** A head alone, after messages that are over. */
  lemma HeadAsked(q: M.Parser, x: Inbox, l: Q.RequestLine, hs: seq<HeaderLine>)
    requires Q.AwaitsRequest(q) && Q.HeadOk(q, l, hs) && x.cur == EMPTY
    ensures AskedFrom(q, x, Q.PrintRequestLine(l) + Head(hs)) == UrlsOf(x.done) + [Text(l.target)]
  {
    hide Inv, Feed, Collect, LineOk, Q.PrintRequestLine, Head, LinesFields, WithLines, Q.RequestOk, Text, Q.Keeps,
         Q.AfterLine, UrlsOf, M.SummaryOf, AfterLines;
    NoTargetText();
    Q.LineRead(q, x, l, hs);
    Q.LineFacts(q, l);
    var q1, y := Q.AfterLine(q, l), Inbox(x.done, Q.WithTarget(R.Began(x.cur), l.target));
    Q.TargetSettled(x.cur, l.target);
    HeadRun(q1, y, hs);
    Q.RequestSums(q, l, LinesFields(R.NO_FIELDS, hs));
    FeedTwice(q, x, Q.PrintRequestLine(l), Head(hs));
    KeepsUrl(y.cur, hs);
    var m := Announced(y.cur, hs, M.SummaryOf(AfterLines(q1, hs)));
    HeadDue(Feed(q1, Head(hs)).q, AfterLines(q1, hs), x.done, m, Collect(x, Feed(q, Q.PrintRequestLine(l) + Head(hs)).events));
  }

  lemma HeadDue(q': M.Parser, q1: M.Parser, done: seq<Message>, m: Message, y: Inbox)
    requires q'.state == AfterHead(q1).state
    requires y == if q1.flags.chunked || q1.contentLength > 0 then Inbox(done, m) else Inbox(done + [m], EMPTY)
    ensures AllDue(q', y) == UrlsOf(done) + [m.url]
  {
    hide M.NewMessage;
    Bodies.NewMessageState(q1);
    UrlsOfSnoc(done, m);
  }

  /** Requests and then a head in one buffer: their targets are told in order. */
  lemma RowAsked(q0: M.Parser, rs: seq<Q.Sent>, l: Q.RequestLine, hs: seq<HeaderLine>)
    requires q0.index < 256 && Q.AllSent(0, rs)
    requires Q.HeadOk(M.Init(q0, M.Request).(nread := Q.CarriedBy(0, rs)), l, hs)
    ensures Asked(M.Init(q0, M.Request), Q.PrintAll(rs) + (Q.PrintRequestLine(l) + Head(hs))) == Texts(rs) + [Text(l.target)]
  {
    hide Feed, Inv, M.Init, Collect, Q.AllSent, Q.MessagesOf, Q.PrintAll, Q.CarriedBy, AskedFrom, Text, UrlsOf, Q.RequestOk,
         LineOk, Q.PrintRequestLine, Head, LinesFields;
    var q := M.Init(q0, M.Request);
    StartsAwaiting(q0);
    Q.RequestsRoundTrip(q, NO_MESSAGES, 0, rs);
    SentUrls(0, rs);
    var q1, ms := Feed(q, Q.PrintAll(rs)).q, Q.MessagesOf(0, rs);
    assert [] + ms == ms;
    AskedLater(q, NO_MESSAGES, Q.PrintAll(rs), Q.PrintRequestLine(l) + Head(hs));
    HeadAsked(q1, Inbox(ms, EMPTY), l, hs);
  }

  lemma StartsAwaiting(q0: M.Parser)
    requires q0.index < 256
    ensures Q.AwaitsRequest(M.Init(q0, M.Request)) && M.Init(q0, M.Request).nread == 0
  {
    hide Inv;
    InitSafe(q0, M.Request);
  }

  /** With several requests in the buffer the last target is what is kept exactly when no
      earlier one is longer. */
  lemma LastLeft(q0: M.Parser, rs: seq<Q.Sent>, l: Q.RequestLine, hs: seq<HeaderLine>)
    requires q0.index < 256 && Q.AllSent(0, rs)
    requires Q.HeadOk(M.Init(q0, M.Request).(nread := Q.CarriedBy(0, rs)), l, hs)
    ensures var us := Asked(M.Init(q0, M.Request), Q.PrintAll(rs) + (Q.PrintRequestLine(l) + Head(hs)));
            Overlay(us) == Text(l.target) <==> forall i :: 0 <= i < |rs| ==> |Texts(rs)[i]| <= |Text(l.target)|
  {
    hide M.Init, Asked, Overlay, Text, Q.AllSent, Q.HeadOk, Q.PrintAll, Q.PrintRequestLine, Head, Q.CarriedBy;
    RowAsked(q0, rs, l, hs);
    var us := Texts(rs) + [Text(l.target)];
    OverlayLast(us);
    assert us[|us| - 1] == Text(l.target);
    assert forall i :: 0 <= i < |rs| ==> us[i] == Texts(rs)[i];
  }

  // ----- Two requests, the second for a shorter target -----

  function PathTarget(path: string): Target { Target("", path, 0, "", 0, "") }

  function GetLine(path: string): Q.RequestLine { Q.RequestLine(M.GET, PathTarget(path), Q.Http("1", "1"), false) }

  const NO_BODY: seq<HeaderLine> := [R.LengthLine(0)]

  function GetRequest(path: string): Q.Sent { Q.Sent(GetLine(path), NO_BODY, Sized("")) }

  predicate PlainPath(path: string) { path != [] && path[0] == '/' && forall i :: 0 <= i < |path| ==> IsUrlChar(path[i]) }

  lemma PathText(path: string)
    requires PlainPath(path)
    ensures Text(PathTarget(path)) == path && Q.TargetForm(PathTarget(path))
  {
    assert Repeat('?', 0) == [] && Repeat('#', 0) == [];
    assert [] + path + [] == path;
  }

  lemma GetOk(path: string)
    requires PlainPath(path)
    ensures Q.RequestOk(GetLine(path)) && Q.MajorOf(GetLine(path)) == 1 == Q.MinorOf(GetLine(path))
    ensures Q.PrintRequestLine(GetLine(path)) == "GET " + path + " HTTP/1.1\r\n"
  {
    hide Text, Q.TargetForm;
    PathText(path);
    R.Http10();
    assert Methods.Spelt(M.GET) + [' '] == "GET ";
    assert [' '] + Q.PrintVersion("1", "1", false) == " HTTP/1.1\r\n";
    assert "GET " + (path + " HTTP/1.1\r\n") == "GET " + path + " HTTP/1.1\r\n";
  }

  lemma NoBodyLines()
    ensures LineOk(NO_BODY[0]) && LinesFields(R.NO_FIELDS, NO_BODY) == R.NO_FIELDS.(length := 0)
    ensures Head(NO_BODY) == "Content-Length: 0\r\n\r\n"
  {
    hide LineOk, LinesFields, LineFields;
    var h, f := R.LengthLine(0), R.NO_FIELDS;
    R.LengthLineOk(f, 0);
    assert NO_BODY == [h] + [];
    R.OneLine(f, h, []);
    R.NoLines(f.(length := 0));
    R.LineText(h);
    assert NO_BODY[1..] == [];
    assert R.PrintDecimal(0) == "0";
    assert PrintLines(NO_BODY) == PrintLine(h) + [];
    assert "Content-Length" + ": " + "0" + "\r\n" == "Content-Length: 0\r\n";
  }

  lemma GetSent(path: string)
    requires PlainPath(path) && |path| < 100
    ensures Q.AllSent(0, [GetRequest(path)]) && Q.CarriedBy(0, [GetRequest(path)]) == 0
    ensures Q.PrintAll([GetRequest(path)]) == "GET " + path + " HTTP/1.1\r\nContent-Length: 0\r\n\r\n"
  {
    hide Q.RequestOk, LineOk, LinesFields, Text, Q.PrintRequestLine, Head, Q.MajorOf, Q.MinorOf;
    GetOk(path);
    NoBodyLines();
    var r := GetRequest(path);
    assert [r][1..] == [];
    Q.NoneSent(0);
    assert Q.PrintSent(r) == Q.PrintRequestLine(r.line) + (Head(NO_BODY) + "");
    assert Q.PrintAll([r]) == Q.PrintSent(r) + [];
    assert "GET " + path + " HTTP/1.1\r\n" + ("Content-Length: 0\r\n\r\n" + "")
           == "GET " + path + " HTTP/1.1\r\nContent-Length: 0\r\n\r\n";
  }

  lemma NoLines()
    ensures Head([]) == "\r\n" && LinesFields(R.NO_FIELDS, []) == R.NO_FIELDS
  {
  }

  lemma TwoAsked(q0: M.Parser, a: string, b: string)
    requires q0.index < 256 && PlainPath(a) && PlainPath(b) && |a| < 100 && |b| < 100
    ensures Asked(M.Init(q0, M.Request),
                  "GET " + a + " HTTP/1.1\r\nContent-Length: 0\r\n\r\n" + ("GET " + b + " HTTP/1.1\r\n" + "\r\n")) == [a, b]
  {
    hide Asked, Text, Q.RequestOk, LinesFields, Head, Q.PrintRequestLine, Q.AllSent, Q.CarriedBy, Q.PrintAll, PlainPath;
    GetSent(a);
    GetOk(b);
    NoLines();
    PathText(a);
    PathText(b);
    var rs := [GetRequest(a)];
    InitIs(q0);
    RowAsked(q0, rs, GetLine(b), []);
    assert Texts(rs) == [a];
  }

  lemma FirstText()
    ensures "GET " + "/abc" + " HTTP/1.1\r\nContent-Length: 0\r\n\r\n" == "GET /abc HTTP/1.1\r\n" + "Content-Length: 0\r\n\r\n"
  {
  }

  lemma SecondText()
    ensures "GET " + "/x" + " HTTP/1.1\r\n" + "\r\n" == "GET /x HTTP/1.1\r\n\r\n"
  {
  }

  lemma OverlayMixed()
    ensures Overlay(["/abc", "/x"]) == "/xbc"
  {
    assert ["/abc", "/x"][..1] == ["/abc"];
    OverlayOne("/abc");
  }

  /** `/abc` and then `/x` in one buffer: neither of the two targets is kept. */
  lemma MixedTargets(q0: M.Parser)
    requires q0.index < 256
    ensures var us := Asked(M.Init(q0, M.Request),
                            "GET /abc HTTP/1.1\r\n" + "Content-Length: 0\r\n\r\n" + "GET /x HTTP/1.1\r\n\r\n");
            us == ["/abc", "/x"] && Overlay(us) == "/xbc"
  {
    hide Asked, M.Init, Overlay;
    TwoAsked(q0, "/abc", "/x");
    FirstText();
    SecondText();
    OverlayMixed();
  }

  // ----- `receive_message`, from the parser on -----

  /** The parser and the two buffers; all of them are used again for every request. */
  class Receiver {
    const parser: H.HttpParser
    const requestPath: array<char>
    const connPath: array<char>

    ghost predicate Valid()
      reads this, parser
    {
      requestPath.Length == BUFSIZ && connPath.Length == BUFSIZ && requestPath != connPath && parser.index < 256
    }

    constructor (parser: H.HttpParser)
      requires parser.index < 256
      ensures Valid() && this.parser == parser && fresh(requestPath) && fresh(connPath)
    {
      this.parser := parser;
      requestPath := new char[BUFSIZ];
      connPath := new char[BUFSIZ];
    }

    /** `memset(a, 0, BUFSIZ)`. */
    method Clear(a: array<char>)
      modifies a
      ensures a[..] == Zeros(a.Length)
    {
      for i := 0 to a.Length
        invariant forall k :: 0 <= k < i ==> a[k] == '\0'
      {
        a[i] := '\0';
      }
    }

    /** `on_path_cb`, for each call of `on_url` in the log: `memcpy` to the front. */
    method OnUrl(bytes: string)
      requires |bytes| <= requestPath.Length
      modifies requestPath
      ensures requestPath[..] == Server.Over(old(requestPath[..]), bytes, 0)
    {
      for i := 0 to |bytes|
        invariant forall k :: 0 <= k < i ==> requestPath[k] == bytes[k]
        invariant forall k :: i <= k < requestPath.Length ==> requestPath[k] == old(requestPath[k])
      {
        requestPath[i] := bytes[i];
      }
      Server.OverIs(old(requestPath[..]), bytes, 0, requestPath[..]);
    }

    /** The callbacks of one call, in order; `ok` is whether each copy fits the buffer. */
    method CopyUrls(log: seq<Event>) returns (ok: bool)
      requires requestPath[..] == Zeros(requestPath.Length)
      modifies requestPath
      ensures ok <==> forall i :: 0 <= i < |Urls(log)| ==> |Urls(log)[i]| <= requestPath.Length
      ensures ok ==> requestPath[..] == Copied(Urls(log), requestPath.Length)
    {
      hide Urls, Copied, Server.Over;
      NothingYet(requestPath.Length);
      for i := 0 to |log|
        invariant forall k :: 0 <= k < |Urls(log[..i])| ==> |Urls(log[..i])[k]| <= requestPath.Length
        invariant requestPath[..] == Copied(Urls(log[..i]), requestPath.Length)
      {
        NextUrl(log, i);
        match log[i] {
          case Data(Url, bytes) =>
            if |bytes| > requestPath.Length {
              TooLong(log, i, requestPath.Length);
              return false;
            }
            CopiedSnoc(Urls(log[..i]), bytes, requestPath.Length);
            OnUrl(bytes);
          case _ =>
        }
      }
      assert log[..|log|] == log;
      ok := true;
    }

    /** `strcpy(conn->request_path, request_path)` into a zeroed buffer; `ok` is whether there
        is a NUL to stop at. */
    method CopyString() returns (ok: bool)
      requires requestPath.Length == connPath.Length && requestPath != connPath
      modifies connPath
      ensures ok <==> Transfer.StrLen(requestPath[..]) < requestPath.Length
      ensures ok ==> CString(connPath[..]) == CString(requestPath[..])
    {
      ghost var text := requestPath[..];
      Clear(connPath);
      var n := 0;
      while n < requestPath.Length && requestPath[n] != '\0'
        invariant n <= requestPath.Length && requestPath[..] == text
        invariant forall k :: 0 <= k < n ==> text[k] != '\0' && connPath[k] == text[k]
        invariant forall k :: n <= k < connPath.Length ==> connPath[k] == '\0'
      {
        connPath[n] := requestPath[n];
        n := n + 1;
      }
      StrLenAt(text, n);
      if n < requestPath.Length { StrLenAt(connPath[..], n); }
      ok := n < requestPath.Length;
      if ok { assert CString(connPath[..]) == CString(text); }
    }

    /** `strlen(conn->recv_buffer)`. */
    method StringLength(a: array<char>) returns (n: nat)
      ensures n == Transfer.StrLen(a[..])
    {
      n := 0;
      while n < a.Length && a[n] != '\0'
        invariant n <= a.Length && forall k :: 0 <= k < n ==> a[k] != '\0'
      {
        n := n + 1;
      }
      StrLenAt(a[..], n);
    }

    /** `receive_message` once the request is in the buffer: parse what precedes the first
        NUL, copy each URL to the front of a zeroed buffer, and keep that as a string.
        However the run ends, if each URL is shorter than the buffer, the string is the URLs
        overlaid. */
    method ReceiveMessage(received: array<char>) returns (ok: bool)
      requires Valid() && received != requestPath && received != connPath
      modifies parser, requestPath, connPath
      ensures var q, data := M.Init(old(parser.Stored()), M.Request), CString(received[..]);
              Defined(Feed(q, data)) && Short(Asked(q, data))
              ==> ok && CString(connPath[..]) == Overlay(Asked(q, data))
    {
      hide Inv, Feed, Collect, M.Init, Asked, Overlay, InTarget, H.UrlsTold, LacksOpen, H.Told, Copied, Tidy, Settled,
           Urls, Zeros, Narrow, H.Executed, Short;
      ghost var stored := parser.Stored();
      var n := StringLength(received);
      var text := new char[n](i requires 0 <= i < n reads received => received[i]);
      assert text[..] == CString(received[..]);
      parser.Init(M.Request);
      ghost var q := parser.Stored();
      StartsRequest(stored);
      parser.log := [];
      StartTidy(parser.Stored(), Mail(parser.log).cur);
      Clear(requestPath);
      var at, flow := parser.Execute(text);
      assert parser.log[0..] == parser.log;
      ok := CopyUrls(parser.log);
      ghost var us := Urls(parser.log);
      if Defined(Feed(q, text[..])) && Short(Asked(q, text[..])) {
        if text.Length == 0 { NothingAsked(q); } else { UrlsAre(q, text[..], parser.log, flow, at, parser.Stored()); }
        ShortFits(us);
        AskedNoNul(stored, text[..]);
        CopiedString(us, BUFSIZ);
        CopiedIs(us, BUFSIZ);
      }
      if ok { ok := CopyString(); }
    }
  }

  /** The run does nothing that C leaves undefined. */
  predicate Defined(r: Run) { r.Stopped? ==> !r.reason.UndefinedStep? }

  predicate Short(us: seq<string>) { forall i :: 0 <= i < |us| ==> |us[i]| < BUFSIZ }

  lemma StartsRequest(q: M.Parser)
    ensures M.Init(q, M.Request).state.StartReq? && M.Init(q, M.Request).kind.Request?
  {
  }

  lemma StartTidy(q: M.Parser, m: Message)
    ensures q.state.StartReq? ==> Tidy(q.state, m)
  {
  }

  lemma ShortFits(us: seq<string>)
    requires Short(us)
    ensures forall i :: 0 <= i < |us| ==> |us[i]| < BUFSIZ
  {
  }

  lemma NothingAsked(q: M.Parser)
    requires q.state.StartReq?
    ensures Asked(q, []) == [] == Urls([])
  {
    hide Feed;
    FeedEmpty(q);
    CollectNone(NO_MESSAGES);
  }

  /** The URLs of the log of a call are those that are asked for, however the call ends. */
  lemma UrlsAre(q: M.Parser, text: string, log: seq<Event>, flow: H.Flow, n: nat, stored: M.Parser)
    requires q.state.StartReq? && Inv(q) && Defined(Feed(q, text))
    requires H.Executed(Feed(q, text), |text|, n, flow, stored, Mail([]), Mail(log))
    requires flow.GotoError? ==> LacksOpen(q, text, n, Mail([]), Mail(log))
    requires !flow.Undefined? ==> H.UrlsTold(q, text, n, flow, log, stored)
    ensures Urls(log) == Asked(q, text)
  {
    hide Feed, Collect, Urls, TellsUrls, TellsAll, TellsLast, LacksOpen, AllDue, Due, UrlsOf, InTarget;
    StartsUnread(q);
    CollectNone(NO_MESSAGES);
    assert [] + Urls(log) == Urls(log);
    var r := Feed(q, text);
    match flow
    case Continue =>
      TellsAllFrom(q, log, stored, NO_MESSAGES);
      NarrowDue(r.q, Mail(log));
    case GotoError =>
      StopAsked(q, NO_MESSAGES, text);
      var q1 := Feed(q, text[..n]).q;
      TellsFrom(q, log, q1, NO_MESSAGES);
      LackedDue(q, text, n, Mail([]), Mail(log));
    case Return =>
      TellsLastFrom(q, log, NO_MESSAGES);
    case Undefined =>
  }

  /** The bytes that a refused byte drops belong to a URL that is not told. */
  lemma LackedDue(q: M.Parser, data: string, n: nat, x0: Inbox, x: Inbox)
    requires LacksOpen(q, data, n, x0, x)
    ensures var r := Feed(q, data[..n]); Due(r.q, x) == Due(r.q, Collect(x0, r.events))
  {
    hide Feed, Collect, Fits, Pending, InTarget, Early, UrlsOf;
    var r := Feed(q, data[..n]);
    var y := Collect(x0, r.events);
    BetweenIsEarly(r.q.state);
    if !(Frames.BetweenMessages(r.q.state) && x == Receive(y, Begin)) {
      var m :| Fits(m, r.q.state, n) && Collect(x, Pending(m, r.q.state, data, n)) == y;
      PendingIsCurrent(x, m, r.q.state, data, n);
      if !InTarget(r.q.state) { HeaderPending(x, m, r.q.state, data, n); }
    }
  }

  lemma BetweenIsEarly(s: M.State)
    ensures Frames.BetweenMessages(s) ==> Early(s)
  {
  }

  lemma HeaderPending(x: Inbox, m: Marks, s: M.State, data: string, p: nat)
    requires !InTarget(s)
    ensures Collect(x, Pending(m, s, data, p)).cur.url == x.cur.url
  {
    hide Open, InTarget, SliceFrom, Collect;
    OnlyHeaderSlices(s);
    TargetStays(x, Pending(m, s, data, p));
  }

  lemma NarrowDue(q: M.Parser, x: Inbox)
    ensures AllDue(Narrow(q), x) == AllDue(q, x)
  {
    hide Early, UrlsOf;
  }

  lemma TellsFrom(q: M.Parser, es: seq<Event>, q': M.Parser, x: Inbox)
    requires TellsUrls(q, es, q') && UrlState(q, x)
    ensures Due(q', Collect(x, es)) == Due(q, x) + Urls(es)
  {
    hide Collect, Urls, Due, UrlState;
  }

  lemma TellsAllFrom(q: M.Parser, es: seq<Event>, q': M.Parser, x: Inbox)
    requires TellsAll(q, es, q') && UrlState(q, x)
    ensures AllDue(q', Collect(x, es)) == Due(q, x) + Urls(es)
  {
    hide Collect, Urls, Due, AllDue, UrlState;
  }

  lemma TellsLastFrom(q: M.Parser, es: seq<Event>, x: Inbox)
    requires TellsLast(q, es) && UrlState(q, x)
    ensures UrlsOf(Collect(x, es).done) == Due(q, x) + Urls(es)
  {
    hide Collect, Urls, Due, UrlsOf, UrlState;
  }

  lemma StartsUnread(q: M.Parser)
    requires q.state.StartReq?
    ensures UrlState(q, NO_MESSAGES) && Due(q, NO_MESSAGES) == []
  {
  }

  lemma OneMoreUrl(e: Event)
    ensures Urls([e]) == if e.Data? && e.slice.Url? then [e.bytes] else []
  {
    assert [e][1..] == [];
    if e.Data? && e.slice.Url? { assert [e.bytes] + [] == [e.bytes]; }
  }

  lemma NothingYet(n: nat)
    ensures Urls([]) == [] && Copied([], n) == Zeros(n)
  {
  }

  lemma NextUrl(log: seq<Event>, i: nat)
    requires i < |log|
    ensures Urls(log[..i + 1]) ==
            if log[i].Data? && log[i].slice.Url? then Urls(log[..i]) + [log[i].bytes] else Urls(log[..i])
  {
    assert log[..i + 1] == log[..i] + [log[i]];
    UrlsAppend(log[..i], [log[i]]);
    OneMoreUrl(log[i]);
    assert Urls(log[..i]) + [] == Urls(log[..i]);
  }

  lemma CopiedSnoc(us: seq<string>, u: string, n: nat)
    requires |u| <= n && forall k :: 0 <= k < |us| ==> |us[k]| <= n
    ensures Copied(us + [u], n) == Server.Over(Copied(us, n), u, 0)
  {
    assert (us + [u])[..|us + [u]| - 1] == us;
  }

  lemma TooLong(log: seq<Event>, i: nat, n: nat)
    requires i < |log| && log[i].Data? && log[i].slice.Url? && |log[i].bytes| > n
    ensures exists k :: 0 <= k < |Urls(log)| && |Urls(log)[k]| > n
  {
    assert log == log[..i] + [log[i]] + log[i + 1..];
    UrlsAppend(log[..i] + [log[i]], log[i + 1..]);
    UrlsAppend(log[..i], [log[i]]);
    OneMoreUrl(log[i]);
    assert Urls(log)[|Urls(log[..i])|] == log[i].bytes;
  }

  /** The length of a string whose first NUL, if any, is at `n`. */
  lemma {:induction false} StrLenAt(s: string, n: nat)
    requires n <= |s| && (forall k :: 0 <= k < n ==> s[k] != '\0') && (n < |s| ==> s[n] == '\0')
    ensures Transfer.StrLen(s) == n
    decreases |s|
  {
    if n > 0 {
      forall k | 0 <= k < n - 1 ensures s[1..][k] != '\0' { assert s[1..][k] == s[k + 1]; }
      StrLenAt(s[1..], n - 1);
    }
  }
}
