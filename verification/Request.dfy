/** Printing a request and parsing it gives it back: the method, the pieces of the target,
    the version, every header and the body; and so for any number of requests in a row. */
module Request {
  import opened Syntax
  import opened Machine
  import opened Messages
  import opened Marks
  import opened Frames
  import opened Invariant
  import opened Split
  import opened Headers
  import opened HeaderLines
  import opened Chunked
  import opened Framing
  import opened Versions
  import opened Targets
  import opened Bodies
  import Methods
  import R = Response

  // ----- The authority -----

  /** What may come before the path: a scheme, `://` or a dot or a digit, a host and a port. */
  datatype Origin = Origin(scheme: string, mark: string, host: string, port: Option<string>)

  predicate OriginOk(o: Origin) {
    && o.scheme != [] && (forall i :: 0 <= i < |o.scheme| ==> IsLetter(o.scheme[i]))
    && (o.mark == "://" || o.mark == "." || (|o.mark| == 1 && IsDigit(o.mark[0])))
    && (forall i :: 0 <= i < |o.host| ==> IsLetter(o.host[i]) || IsDigit(o.host[i]) || o.host[i] == '.' || o.host[i] == '-')
    && (o.port.Some? ==> forall i :: 0 <= i < |o.port.value| ==> IsDigit(o.port.value[i]))
  }

  function OriginText(o: Origin): string {
    o.scheme + o.mark + o.host + if o.port.Some? then [':'] + o.port.value else []
  }

  function OriginState(o: Origin): State { if o.port.Some? then ReqPort else ReqHost }

  /** After the bytes `s` the parser is in state `s'` and the URL has them. */
  predicate UrlRead(q: Parser, x: Inbox, s: string, s': State) {
    var r := FreeFeed(q, s);
    && r.Consumed? && r.q == q.(state := s', nread := q.nread + |s|)
    && Collect(x, r.events) == Inbox(x.done, x.cur.(url := x.cur.url + s))
  }

  lemma UrlReadNothing(q: Parser, x: Inbox)
    ensures UrlRead(q, x, [], q.state)
  {
    FreeFeedEmpty(q);
    CollectNone(x);
    assert x.cur.url + [] == x.cur.url;
  }

  /** The bytes of an authority, and the states they lead to. */
  predicate Extends(s: State, ch: char, s': State) {
    match s'
    case ReqSchema => IsLetter(ch) && (s.ReqSpacesBeforeUrl? || s.ReqSchema?)
    case ReqSchemaSlash => ch == ':' && s.ReqSchema?
    case ReqSchemaSlashSlash => ch == '/' && s.ReqSchemaSlash?
    case ReqHost =>
      || (ch == '/' && s.ReqSchemaSlashSlash?)
      || ((ch == '.' || IsDigit(ch)) && s.ReqSchema?)
      || ((IsLetter(ch) || IsDigit(ch) || ch == '.' || ch == '-') && s.ReqHost?)
    case ReqPort => (ch == ':' && s.ReqHost?) || (IsDigit(ch) && s.ReqPort?)
    case _ => false
  }

  lemma ExtendsByte(q: Parser, ch: char, s': State)
    requires Extends(q.state, ch, s')
    ensures InUrl(q.state) && InAuthority(s') && UrlByte(q, ch) == Next(q.(state := s'), [])
  {
  }

  /** One more byte of the authority. */
  lemma UrlReadSnoc(q: Parser, x: Inbox, s: string, s1: State, ch: char, s2: State)
    requires UrlRead(q, x, s, s1) && Extends(s1, ch, s2)
    ensures UrlRead(q, x, s + [ch], s2)
  {
    hide FreeFeed, FreeStep, Collect, UrlByte, ByteEvents, Kept, UrlNext, Extends, InAuthority, InUrl;
    var q1, y := FreeFeed(q, s).q, Collect(x, FreeFeed(q, s).events);
    ExtendsByte(q1, ch, s2);
    UrlDispatch(q1, ch);
    CountsHere(q1);
    var c := q1.(nread := q1.nread + 1);
    ExtendsByte(c, ch, s2);
    InAuthorityNext(s2);
    UrlCollects(c, y, ch);
    FreeFeedSnoc(q, s, ch);
    var o := FreeStep(q1, ch);
    CollectAppend(x, FreeFeed(q, s).events, ByteEvents(o.q, o.signals, ch));
    KeptAuthority(y.cur, s2, ch);
    assert x.cur.url + s + [ch] == x.cur.url + (s + [ch]);
  }

  lemma InAuthorityNext(s: State)
    requires InAuthority(s)
    ensures UrlNext(s) && InUrl(s)
  {
  }

  lemma KeptAuthority(m: Message, s: State, ch: char)
    requires InAuthority(s)
    ensures Kept(m, s, ch) == m.(url := m.url + [ch])
  {
  }

  lemma {:induction false} SchemeRun(q: Parser, x: Inbox, s: string)
    requires q.state.ReqSpacesBeforeUrl? && s != [] && forall i :: 0 <= i < |s| ==> IsLetter(s[i])
    ensures UrlRead(q, x, s, ReqSchema)
    decreases |s|
  {
    hide UrlRead;
    var t, ch := s[..|s| - 1], s[|s| - 1];
    assert s == t + [ch];
    assert IsLetter(ch);
    if t == [] {
      UrlReadNothing(q, x);
      UrlReadSnoc(q, x, t, ReqSpacesBeforeUrl, ch, ReqSchema);
    } else {
      SchemeRun(q, x, t);
      UrlReadSnoc(q, x, t, ReqSchema, ch, ReqSchema);
    }
  }

  lemma MarkRun(q: Parser, x: Inbox, s: string, mark: string)
    requires UrlRead(q, x, s, ReqSchema) && (mark == "://" || mark == "." || (|mark| == 1 && IsDigit(mark[0])))
    ensures UrlRead(q, x, s + mark, ReqHost)
  {
    hide UrlRead;
    if mark == "://" {
      UrlReadSnoc(q, x, s, ReqSchema, ':', ReqSchemaSlash);
      UrlReadSnoc(q, x, s + [':'], ReqSchemaSlash, '/', ReqSchemaSlashSlash);
      UrlReadSnoc(q, x, s + [':'] + ['/'], ReqSchemaSlashSlash, '/', ReqHost);
      assert s + [':'] + ['/'] + ['/'] == s + "://";
    } else {
      UrlReadSnoc(q, x, s, ReqSchema, mark[0], ReqHost);
      assert mark == [mark[0]];
    }
  }

  lemma {:induction false} HostRun(q: Parser, x: Inbox, s: string, host: string)
    requires UrlRead(q, x, s, ReqHost)
    requires forall i :: 0 <= i < |host| ==> IsLetter(host[i]) || IsDigit(host[i]) || host[i] == '.' || host[i] == '-'
    ensures UrlRead(q, x, s + host, ReqHost)
    decreases |host|
  {
    hide UrlRead;
    if host == [] {
      assert s + host == s;
    } else {
      var t, ch := host[..|host| - 1], host[|host| - 1];
      HostRun(q, x, s, t);
      UrlReadSnoc(q, x, s + t, ReqHost, ch, ReqHost);
      assert s + t + [ch] == s + host;
    }
  }

  lemma {:induction false} PortRun(q: Parser, x: Inbox, s: string, port: string)
    requires UrlRead(q, x, s, ReqHost) && forall i :: 0 <= i < |port| ==> IsDigit(port[i])
    ensures UrlRead(q, x, s + ([':'] + port), ReqPort)
    decreases |port|
  {
    hide UrlRead;
    if port == [] {
      UrlReadSnoc(q, x, s, ReqHost, ':', ReqPort);
      assert [':'] + port == [':'];
    } else {
      var t, ch := port[..|port| - 1], port[|port| - 1];
      PortRun(q, x, s, t);
      UrlReadSnoc(q, x, s + ([':'] + t), ReqPort, ch, ReqPort);
      assert s + ([':'] + t) + [ch] == s + ([':'] + port);
    }
  }

  /** An origin is read whole, into the URL. */
  lemma OriginRun(q: Parser, x: Inbox, o: Origin)
    requires q.state.ReqSpacesBeforeUrl? && OriginOk(o)
    ensures UrlRead(q, x, OriginText(o), OriginState(o))
  {
    hide UrlRead, IsLetter, IsDigit;
    SchemeRun(q, x, o.scheme);
    MarkRun(q, x, o.scheme, o.mark);
    HostRun(q, x, o.scheme + o.mark, o.host);
    var s := o.scheme + o.mark + o.host;
    if o.port.Some? { PortRun(q, x, s, o.port.value); } else { assert s + [] == s; }
  }

  // ----- The target -----

  /** The state after the text of a target, if it is `base` after its authority. */
  function StateOf(t: Target, base: State): State {
    if t.fragment != [] then ReqFragment
    else if t.hashes > 0 then ReqFragmentStart
    else if t.query != [] then ReqQueryString
    else if t.marks > 0 then ReqQueryStringStart
    else if t.path != [] then ReqPath
    else base
  }

  /** What follows the authority can be read from there. */
  predicate Follows(t: Target, base: State) {
    && (base.ReqSpacesBeforeUrl? || base.ReqHost? || base.ReqPort?)
    && (base.ReqSpacesBeforeUrl? <==> t.authority == [])
    && (t.authority != [] && t.path != [] ==> t.path[0] == '/')
  }

  function Bare(t: Target): Target { Target(t.authority, "", 0, "", 0, "") }

  /** The text after the authority. */
  function Tail(t: Target): string { Text(t)[|t.authority|..] }

  /** The target without its last byte, and that byte. */
  function Shorter(t: Target): Target
    requires t != Bare(t)
  {
    if t.fragment != [] then t.(fragment := t.fragment[..|t.fragment| - 1])
    else if t.hashes > 0 then t.(hashes := t.hashes - 1)
    else if t.query != [] then t.(query := t.query[..|t.query| - 1])
    else if t.marks > 0 then t.(marks := t.marks - 1)
    else t.(path := t.path[..|t.path| - 1])
  }

  function LastByte(t: Target): char
    requires t != Bare(t)
  {
    if t.fragment != [] then t.fragment[|t.fragment| - 1]
    else if t.hashes > 0 then '#'
    else if t.query != [] then t.query[|t.query| - 1]
    else if t.marks > 0 then '?'
    else t.path[|t.path| - 1]
  }

  lemma ShorterTarget(t: Target)
    requires TargetOk(t) && t != Bare(t)
    ensures TargetOk(Shorter(t)) && Bare(Shorter(t)) == Bare(t)
  {
    hide AuthorityOk, IsUrlChar;
  }

  lemma ShorterGrows(t: Target, base: State)
    requires TargetOk(t) && Follows(t, base) && t != Bare(t)
    ensures Grown(Shorter(t), StateOf(t, base), LastByte(t)) == t
    ensures Follows(Shorter(t), base)
  {
    hide AuthorityOk, IsUrlChar;
  }

  lemma ShorterGoes(t: Target, base: State)
    requires TargetOk(t) && Follows(t, base) && t != Bare(t)
    ensures Goes(StateOf(Shorter(t), base), LastByte(t), StateOf(t, base))
  {
    hide AuthorityOk, IsLetter;
  }

  lemma ShorterOk(t: Target, base: State)
    requires TargetOk(t) && Follows(t, base) && t != Bare(t)
    ensures TargetOk(Shorter(t)) && Follows(Shorter(t), base) && Bare(Shorter(t)) == Bare(t)
    ensures Grown(Shorter(t), StateOf(t, base), LastByte(t)) == t
    ensures Goes(StateOf(Shorter(t), base), LastByte(t), StateOf(t, base))
  {
    hide TargetOk, Follows, Shorter, LastByte, StateOf, Goes, Grown, Bare;
    ShorterTarget(t);
    ShorterGrows(t, base);
    ShorterGoes(t, base);
  }

  lemma PathForward(q: Parser, ch: char, s': State)
    requires q.state.ReqSpacesBeforeUrl? || q.state.ReqPath? || q.state.ReqQueryStringStart? || q.state.ReqHost? || q.state.ReqPort?
    requires Goes(q.state, ch, s')
    requires s'.ReqPath? || s'.ReqQueryStringStart? || s'.ReqQueryString? || s'.ReqFragmentStart?
    ensures UrlByte(q, ch).Next? && UrlByte(q, ch).q == q.(state := s')
  {
  }

  lemma QueryForward(q: Parser, ch: char, s': State)
    requires (q.state.ReqQueryString? || q.state.ReqFragmentStart? || q.state.ReqFragment?) && Goes(q.state, ch, s')
    requires s'.ReqQueryString? || s'.ReqFragmentStart? || s'.ReqFragment?
    ensures UrlByte(q, ch).Next? && UrlByte(q, ch).q == q.(state := s')
  {
  }

  lemma GoesForward(q: Parser, t: Target, base: State, ch: char, s': State)
    requires Follows(t, base) && q.state == StateOf(t, base) && Goes(q.state, ch, s')
    requires s'.ReqPath? || s'.ReqQueryStringStart? || s'.ReqQueryString? || s'.ReqFragmentStart? || s'.ReqFragment?
    ensures InUrl(q.state) && UrlByte(q, ch).Next? && UrlByte(q, ch).q == q.(state := s')
  {
    hide UrlByte;
    if q.state.ReqQueryString? || q.state.ReqFragmentStart? || q.state.ReqFragment? {
      QueryForward(q, ch, s');
    } else {
      PathForward(q, ch, s');
    }
  }

  /** The message with a target whose bytes have been collected. */
  function WithTarget(m: Message, t: Target): Message {
    m.(url := Text(t), path := t.path, query := t.query, fragment := t.fragment)
  }

  lemma KeptTarget(m: Message, t: Target, base: State)
    requires t != Bare(t)
    requires Text(t) == Text(Shorter(t)) + [LastByte(t)]
    ensures Kept(WithTarget(m, Shorter(t)), StateOf(t, base), LastByte(t)) == WithTarget(m, t)
  {
    hide Text, Shorter, LastByte, StateOf, Kept;
    var s, t1, ch := StateOf(t, base), Shorter(t), LastByte(t);
    LastState(t, base);
    ShorterPieces(t, base);
    KeptPieces(WithTarget(m, t1), s, ch);
  }

  /** Which piece loses the byte. */
  lemma ShorterPieces(t: Target, base: State)
    requires t != Bare(t)
    ensures var s, t1, ch := StateOf(t, base), Shorter(t), LastByte(t);
            && t.path == (if s.ReqPath? then t1.path + [ch] else t1.path)
            && t.query == (if s.ReqQueryString? then t1.query + [ch] else t1.query)
            && t.fragment == (if s.ReqFragment? then t1.fragment + [ch] else t1.fragment)
  {
  }

  lemma KeptPieces(m: Message, s: State, ch: char)
    requires InTarget(s)
    ensures Kept(m, s, ch) ==
            m.(url := m.url + [ch], path := if s.ReqPath? then m.path + [ch] else m.path,
               query := if s.ReqQueryString? then m.query + [ch] else m.query,
               fragment := if s.ReqFragment? then m.fragment + [ch] else m.fragment)
  {
  }

  lemma StateOfReads(t: Target, base: State)
    requires TargetOk(t) && Follows(t, base)
    ensures var s := StateOf(t, base);
            && ReadTo(s, t) && InUrl(s) && UrlNext(s)
            && (t != NO_TARGET ==> InTarget(s))
  {
    hide AuthorityOk;
  }

  lemma LastState(t: Target, base: State)
    requires t != Bare(t)
    ensures var s := StateOf(t, base);
            s.ReqPath? || s.ReqQueryStringStart? || s.ReqQueryString? || s.ReqFragmentStart? || s.ReqFragment?
  {
  }

  lemma BareText(t: Target)
    ensures Text(Bare(t)) == t.authority && Tail(Bare(t)) == [] && Text(t) == t.authority + Tail(t)
  {
    assert Repeat('?', 0) == [] && Repeat('#', 0) == [];
    assert Text(t)[..|t.authority|] == t.authority;
  }

  /** After the text of a target the application has its pieces. */
  predicate AtTarget(r: Run, q: Parser, x: Inbox, t: Target) {
    && r.Consumed? && r.q == q.(state := StateOf(t, q.state), nread := q.nread + |Tail(t)|)
    && Collect(x, r.events) == Inbox(x.done, WithTarget(x.cur, t))
  }

  /** From the end of the authority to the end of the target. */
  lemma {:induction false} TailRun(q: Parser, x: Inbox, t: Target)
    requires TargetOk(t) && Follows(t, q.state) && Reports(x.cur, Bare(t))
    ensures AtTarget(FreeFeed(q, Tail(t)), q, x, t)
    decreases |t.path| + t.marks + |t.query| + t.hashes + |t.fragment|
  {
    hide FreeFeed, FreeStep, TargetOk, Text, Collect, UrlByte, Goes, ReadTo, UrlNext, Follows;
    BareText(t);
    if t == Bare(t) {
      FreeFeedEmpty(q);
      CollectNone(x);
    } else {
      var t1, ch := Shorter(t), LastByte(t);
      ShorterOk(t, q.state);
      TailRun(q, x, t1);
      var q1, y := FreeFeed(q, Tail(t1)).q, Collect(x, FreeFeed(q, Tail(t1)).events);
      TargetStep(q1, y, t, q.state, ch);
      TailSnoc(t, t1, ch);
      var o := FreeStep(q1, ch);
      FreeFeedSnoc(q, Tail(t1), ch);
      CollectAppend(x, FreeFeed(q, Tail(t1)).events, ByteEvents(o.q, o.signals, ch));
      KeptTarget(x.cur, t, q.state);
    }
  }

  lemma TailSnoc(t: Target, t1: Target, ch: char)
    requires t1.authority == t.authority && Text(t) == Text(t1) + [ch]
    ensures Tail(t) == Tail(t1) + [ch]
  {
    BareText(t1);
  }

  lemma TargetByte(q: Parser, t: Target, base: State, ch: char)
    requires TargetOk(t) && Follows(t, base) && t != Bare(t) && ch == LastByte(t)
    requires q.state == StateOf(Shorter(t), base)
    ensures InUrl(q.state)
    ensures var o := UrlByte(q, ch);
            o.Next? && o.q == q.(state := StateOf(t, base)) && UrlNext(StateOf(t, base))
    ensures Text(t) == Text(Shorter(t)) + [ch]
  {
    hide TargetOk, Text, UrlByte, Goes, ReadTo, UrlNext, Grown, Shorter, LastByte, StateOf, InUrl, InTarget, Follows;
    var t1 := Shorter(t);
    ShorterOk(t, base);
    StateOfReads(t1, base);
    StateOfReads(t, base);
    LastState(t, base);
    GoesForward(q, t1, base, ch, StateOf(t, base));
    Grow(StateOf(t1, base), t1, ch, StateOf(t, base));
  }

  /** One more byte of a target. */
  lemma TargetStep(q: Parser, x: Inbox, t: Target, base: State, ch: char)
    requires TargetOk(t) && Follows(t, base) && t != Bare(t) && ch == LastByte(t)
    requires q.state == StateOf(Shorter(t), base)
    ensures var o := FreeStep(q, ch);
            && o.Next? && o.q == q.(state := StateOf(t, base), nread := q.nread + 1)
            && Collect(x, ByteEvents(o.q, o.signals, ch)) == Inbox(x.done, Kept(x.cur, StateOf(t, base), ch))
    ensures Text(t) == Text(Shorter(t)) + [ch]
  {
    hide FreeStep, TargetOk, Text, UrlByte, ByteEvents, Collect, Kept, UrlNext, InUrl, StateOf, Shorter, LastByte, Follows;
    var c := q.(nread := q.nread + 1);
    TargetByte(c, t, base, ch);
    UrlDispatch(q, ch);
    CountsHere(q);
    UrlCollects(c, x, ch);
  }

  /** A target that begins with its path, or with an origin. */
  ghost predicate TargetForm(t: Target) {
    && TargetOk(t) && t != NO_TARGET
    && (t.authority != [] ==> (exists o :: OriginOk(o) && OriginText(o) == t.authority)
                              && (t.path != [] ==> t.path[0] == '/'))
  }

  /** A whole target. */
  lemma TargetRun(q: Parser, x: Inbox, t: Target) returns (s: State)
    requires q.state.ReqSpacesBeforeUrl? && TargetForm(t) && Reports(x.cur, NO_TARGET)
    ensures var r := FreeFeed(q, Text(t));
            && r.Consumed? && r.q == q.(state := s, nread := q.nread + |Text(t)|)
            && Collect(x, r.events) == Inbox(x.done, WithTarget(x.cur, t))
    ensures InTarget(s) && (s.ReqHost? || s.ReqPort? || !InAuthority(s)) && (t.path != [] ==> !InAuthority(s))
  {
    hide FreeFeed, TargetOk, Text, Collect, OriginOk, InTarget;
    NoTargetText();
    BareText(t);
    if t.authority == [] {
      assert [] + Tail(t) == Tail(t);
      TailRun(q, x, t);
      TargetState(t, ReqSpacesBeforeUrl);
      s := StateOf(t, ReqSpacesBeforeUrl);
    } else {
      var o :| OriginOk(o) && OriginText(o) == t.authority;
      OriginRun(q, x, o);
      var q1, y := FreeFeed(q, t.authority).q, Collect(x, FreeFeed(q, t.authority).events);
      assert [] + t.authority == t.authority;
      TailRun(q1, y, t);
      FreeFeedAppend(q, t.authority, Tail(t));
      CollectAppend(x, FreeFeed(q, t.authority).events, FreeFeed(q1, Tail(t)).events);
      TargetState(t, OriginState(o));
      s := StateOf(t, OriginState(o));
    }
  }

  lemma TargetState(t: Target, base: State)
    requires TargetOk(t) && Follows(t, base) && t != NO_TARGET
    ensures var s := StateOf(t, base);
            InTarget(s) && (s.ReqHost? || s.ReqPort? || !InAuthority(s)) && (t.path != [] ==> !InAuthority(s))
  {
    hide TargetOk;
    StateOfReads(t, base);
  }

  // ----- The version -----

  lemma SpaceEnds(q: Parser)
    requires InTarget(q.state) && (q.state.ReqHost? || q.state.ReqPort? || !InAuthority(q.state))
    ensures UrlByte(q, ' ').Next? && UrlByte(q, ' ').q == q.(state := ReqHttpStart)
  {
  }

  /** CR or LF after the target: a request without a version. */
  lemma BreakEnds(q: Parser)
    requires InTarget(q.state) && !InAuthority(q.state)
    ensures UrlByte(q, CR).Next? && UrlByte(q, CR).q == q.(state := ReqLineAlmostDone, httpMajor := 0, httpMinor := 9)
    ensures UrlByte(q, LF).Next? && UrlByte(q, LF).q == q.(state := HeaderFieldStart, httpMajor := 0, httpMinor := 9)
  {
  }

  lemma NothingKept(m: Message, s: State, ch: char)
    requires s.ReqHttpStart? || s.ReqLineAlmostDone? || s.HeaderFieldStart?
    ensures Kept(m, s, ch) == m && UrlNext(s)
  {
  }

  /** The byte after the target. */
  lemma TargetEnds(q: Parser, x: Inbox, ch: char, q1: Parser)
    requires InTarget(q.state) && (q1.state.ReqHttpStart? || q1.state.ReqLineAlmostDone? || q1.state.HeaderFieldStart?)
    requires UrlByte(q.(nread := q.nread + 1), ch).Next? && UrlByte(q.(nread := q.nread + 1), ch).q == q1
    ensures var o := FreeStep(q, ch); o.Next? && o.q == q1 && Collect(x, ByteEvents(o.q, o.signals, ch)) == x
  {
    hide FreeStep, UrlByte, ByteEvents, Collect, Kept, UrlNext, InUrl;
    UrlDispatch(q, ch);
    CountsHere(q);
    NothingKept(x.cur, q1.state, ch);
    UrlCollects(q.(nread := q.nread + 1), x, ch);
  }

  lemma HtText(q: Parser)
    requires q.state.ReqHttpStart?
    ensures Silent(q, "HT", q.(state := ReqHttpHT, nread := q.nread + 2))
  {
    hide Silent;
    SilentNothing(q);
    var q1 := q.(state := ReqHttpH, nread := q.nread + 1);
    LineSilent(q, [], q, 'H', q1);
    LineSilent(q, [] + ['H'], q1, 'T', q.(state := ReqHttpHT, nread := q.nread + 2));
    assert [] + ['H'] + ['T'] == "HT";
  }

  lemma TpText(q: Parser)
    requires q.state.ReqHttpHT?
    ensures Silent(q, "TP", q.(state := ReqHttpHTTP, nread := q.nread + 2))
  {
    hide Silent;
    SilentNothing(q);
    var q1 := q.(state := ReqHttpHTT, nread := q.nread + 1);
    LineSilent(q, [], q, 'T', q1);
    LineSilent(q, [] + ['T'], q1, 'P', q.(state := ReqHttpHTTP, nread := q.nread + 2));
    assert [] + ['T'] + ['P'] == "TP";
  }

  lemma HttpText(q: Parser)
    requires q.state.ReqHttpStart?
    ensures Silent(q, "HTTP/", q.(state := ReqFirstHttpMajor, nread := q.nread + 5))
  {
    hide Silent;
    var q1 := q.(state := ReqHttpHT, nread := q.nread + 2);
    HtText(q);
    TpText(q1);
    var q2 := q.(state := ReqHttpHTTP, nread := q.nread + 4);
    SilentTwice(q, "HT", q1, "TP", q2);
    LineSilent(q, "HT" + "TP", q2, '/', q.(state := ReqFirstHttpMajor, nread := q.nread + 5));
    assert "HT" + "TP" + ['/'] == "HTTP/";
  }

  /** `HTTP/`, two numerals and the end of the line. */
  function PrintVersion(major: string, minor: string, bare: bool): string {
    "HTTP/" + (major + ['.']) + (minor + LineEnd(bare))
  }

  lemma MinorEnds(q: Parser, minor: string, bare: bool)
    requires q.state.ReqFirstHttpMinor? && NumberOk(RequestMinor, minor)
    ensures Silent(q, minor + LineEnd(bare),
                   q.(state := HeaderFieldStart, httpMinor := Decimal(minor), nread := q.nread + |minor + LineEnd(bare)|))
  {
    hide Silent, Decimal;
    if bare {
      NumberAndLine(q, RequestMinor, minor);
    } else {
      NumberAndStop(q, RequestMinor, minor);
      var q1 := q.(httpMinor := Decimal(minor), state := ReqLineAlmostDone, nread := q.nread + |minor| + 1);
      LineSilent(q, minor + [CR], q1, LF, q1.(state := HeaderFieldStart, nread := q1.nread + 1));
      assert minor + [CR] + [LF] == minor + CRLF;
    }
  }

  lemma VersionRun(q: Parser, major: string, minor: string, bare: bool)
    requires q.state.ReqHttpStart? && NumberOk(RequestMajor, major) && NumberOk(RequestMinor, minor)
    ensures Silent(q, PrintVersion(major, minor, bare),
                   q.(state := HeaderFieldStart, httpMajor := Decimal(major), httpMinor := Decimal(minor),
                      nread := q.nread + |PrintVersion(major, minor, bare)|))
  {
    hide Silent, Decimal, LineEnd;
    HttpText(q);
    var q1 := q.(state := ReqFirstHttpMajor, nread := q.nread + 5);
    NumberAndStop(q1, RequestMajor, major);
    var q2 := q1.(httpMajor := Decimal(major), state := ReqFirstHttpMinor, nread := q1.nread + |major| + 1);
    MinorEnds(q2, minor, bare);
    SilentTwice(q, "HTTP/", q1, major + ['.'], q2);
    SilentTwice(q, "HTTP/" + (major + ['.']), q2, minor + LineEnd(bare),
                q2.(state := HeaderFieldStart, httpMinor := Decimal(minor), nread := q2.nread + |minor + LineEnd(bare)|));
  }

  // ----- The request line -----

  /** `Http09` is no version at all. */
  datatype Version = Http(major: string, minor: string) | Http09

  /** `bare` is whether the line ends with LF alone. */
  datatype RequestLine = RequestLine(meth: Method, target: Target, version: Version, bare: bool)

  /** Any method, any target, any version the parser takes; a line without a version ends
      with its path or what follows it. */
  ghost predicate RequestOk(l: RequestLine) {
    && TargetForm(l.target)
    && match l.version
       case Http(major, minor) => NumberOk(RequestMajor, major) && NumberOk(RequestMinor, minor)
       case Http09 => l.target.path != []
  }

  function MajorOf(l: RequestLine): nat
    requires RequestOk(l)
  {
    if l.version.Http? then Decimal(l.version.major) else 0
  }

  function MinorOf(l: RequestLine): nat
    requires RequestOk(l)
  {
    if l.version.Http? then Decimal(l.version.minor) else 9
  }

  /** What comes after the target. */
  function PrintEnd(l: RequestLine): string {
    match l.version
    case Http(major, minor) => [' '] + PrintVersion(major, minor, l.bare)
    case Http09 => LineEnd(l.bare)
  }

  function PrintRequestLine(l: RequestLine): string {
    Methods.Spelt(l.meth) + [' '] + (Text(l.target) + PrintEnd(l))
  }

  /** The parser after a request line: nothing of an earlier message is left. */
  function AfterLine(q: Parser, l: RequestLine): Parser
    requires RequestOk(l)
  {
    BeginMessage(q).(state := HeaderFieldStart, meth := l.meth, index := |Methods.Spelt(l.meth)| + 1,
                     httpMajor := MajorOf(l), httpMinor := MinorOf(l),
                     nread := q.nread + |PrintRequestLine(l)|)
  }

  predicate AtHeaders(r: Run, x: Inbox, q1: Parser, m: Message) {
    r.Consumed? && r.q == q1 && Collect(x, r.events) == Inbox(x.done, m)
  }

  /** A silent text after one byte, with its callbacks. */
  lemma ByteThenSilent(q: Parser, x: Inbox, ch: char, rest: string, q2: Parser)
    requires var o := FreeStep(q, ch);
             o.Next? && Collect(x, ByteEvents(o.q, o.signals, ch)) == x && Silent(o.q, rest, q2)
    ensures AtHeaders(FreeFeed(q, [ch] + rest), x, q2, x.cur)
  {
    hide FreeFeed, FreeStep, Collect, ByteEvents;
    FreeFeedEmpty(q);
    FreeFeedSnoc(q, [], ch);
    FreeFeedAppend(q, [ch], rest);
    assert [] + [ch] == [ch];
    var o := FreeStep(q, ch);
    var es := ByteEvents(o.q, o.signals, ch);
    assert [] + es == es && es + [] == es;
  }

  /** From the target to the end of the line. */
  lemma EndRun(q: Parser, x: Inbox, l: RequestLine)
    requires RequestOk(l) && InTarget(q.state)
    requires q.state.ReqHost? || q.state.ReqPort? || !InAuthority(q.state)
    requires l.target.path != [] ==> !InAuthority(q.state)
    ensures AtHeaders(FreeFeed(q, PrintEnd(l)), x,
                      q.(state := HeaderFieldStart, httpMajor := MajorOf(l), httpMinor := MinorOf(l),
                         nread := q.nread + |PrintEnd(l)|), x.cur)
  {
    hide FreeFeed, FreeStep, Silent, TargetForm, Collect, Decimal, PrintVersion, ByteEvents, InTarget, InAuthority, UrlByte;
    var c := q.(nread := q.nread + 1);
    match l.version
    case Http(major, minor) =>
      SpaceEnds(c);
      TargetEnds(q, x, ' ', c.(state := ReqHttpStart));
      VersionRun(c.(state := ReqHttpStart), major, minor, l.bare);
      ByteThenSilent(q, x, ' ', PrintVersion(major, minor, l.bare),
                     c.(state := HeaderFieldStart, httpMajor := Decimal(major), httpMinor := Decimal(minor),
                        nread := c.nread + |PrintVersion(major, minor, l.bare)|));
    case Http09 =>
      BreakEnds(c);
      var q1 := c.(state := HeaderFieldStart, httpMajor := 0, httpMinor := 9);
      if l.bare {
        TargetEnds(q, x, LF, q1);
        SilentNothing(q1);
        ByteThenSilent(q, x, LF, [], q1);
        assert [LF] + [] == [LF];
      } else {
        var q2 := q1.(state := ReqLineAlmostDone);
        TargetEnds(q, x, CR, q2);
        SilentNothing(q2);
        LineSilent(q2, [], q2, LF, q1.(nread := q1.nread + 1));
        assert [] + [LF] == [LF] && [CR] + [LF] == CRLF;
        ByteThenSilent(q, x, CR, [LF], q1.(nread := q1.nread + 1));
      }
  }

  lemma TargetLine(q: Parser, x: Inbox, l: RequestLine)
    requires q.state.ReqSpacesBeforeUrl? && RequestOk(l) && Reports(x.cur, NO_TARGET)
    ensures var text := Text(l.target) + PrintEnd(l);
            AtHeaders(FreeFeed(q, text), x,
                      q.(state := HeaderFieldStart, httpMajor := MajorOf(l), httpMinor := MinorOf(l),
                         nread := q.nread + |text|),
                      WithTarget(x.cur, l.target))
  {
    hide FreeFeed, FreeStep, TargetForm, Text, Collect, PrintEnd, InTarget, InAuthority, MajorOf, MinorOf;
    var t := l.target;
    var s := TargetRun(q, x, t);
    var q1, y := FreeFeed(q, Text(t)).q, Inbox(x.done, WithTarget(x.cur, t));
    EndRun(q1, y, l);
    FreeFeedAppend(q, Text(t), PrintEnd(l));
    CollectAppend(x, FreeFeed(q, Text(t)).events, FreeFeed(q1, PrintEnd(l)).events);
  }

  /** The whole request line. */
  lemma LineAndTarget(q: Parser, x: Inbox, l: RequestLine)
    requires q.state.StartReq? && RequestOk(l) && Reports(x.cur, NO_TARGET)
    ensures AtHeaders(FreeFeed(q, PrintRequestLine(l)), x, AfterLine(q, l), WithTarget(R.Began(x.cur), l.target))
  {
    hide FreeFeed, TargetForm, Text, Collect, MajorOf, MinorOf, PrintEnd, Methods.Spelt;
    var head := Methods.Spelt(l.meth) + [' '];
    Methods.StringIsWord(l.meth);
    Methods.MethodText(q, Methods.Spelt(l.meth), l.meth);
    var q1 := FreeFeed(q, head).q;
    Collect1(x, Begin);
    var y := Inbox(x.done, R.Began(x.cur));
    TargetLine(q1, y, l);
    var rest := Text(l.target) + PrintEnd(l);
    FreeFeedAppend(q, head, rest);
    CollectAppend(x, [Begin], FreeFeed(q1, rest).events);
  }

  // ----- Whole requests -----

  /** A parser that awaits a request. */
  predicate AwaitsRequest(q: Parser) { Inv(q) && q.state.StartReq? && q.kind.Request? && !q.upgrade }

  lemma AfterLineInv(q: Parser, l: RequestLine)
    requires AwaitsRequest(q) && RequestOk(l)
    ensures Inv(AfterLine(q, l)) && FieldsOf(AfterLine(q, l)) == R.NO_FIELDS
  {
    hide Decimal, TargetForm, PrintRequestLine;
    Methods.Letters(l.meth);
  }

  /** Whether the connection is kept after a message with these header lines. */
  predicate Keeps(l: RequestLine, g: Fields)
    requires RequestOk(l)
  {
    if MajorOf(l) > 0 && MinorOf(l) > 0 then !g.close else g.keepAlive
  }

  lemma RequestSums(q: Parser, l: RequestLine, g: Fields)
    requires AwaitsRequest(q) && RequestOk(l)
    ensures var q1 := WithFields(AfterLine(q, l), g);
            && SummaryOf(q1) == RequestSummary(l.meth, MajorOf(l), MinorOf(l), Keeps(l, g), g.length)
            && NewMessage(q1) == if Keeps(l, g) then StartReq else Dead
  {
    hide PrintRequestLine, Inv, TargetForm, Decimal;
  }

  /** What the application has of a request when its headers are complete. */
  function Asked(l: RequestLine, hs: seq<HeaderLine>, m: Message): Message
    requires RequestOk(l) && forall i :: 0 <= i < |hs| ==> LineOk(hs[i])
  {
    var g := LinesFields(R.NO_FIELDS, hs);
    Announced(WithTarget(R.Began(m), l.target), hs,
              RequestSummary(l.meth, MajorOf(l), MinorOf(l), Keeps(l, g), g.length))
  }

  ghost predicate HeadOk(q: Parser, l: RequestLine, hs: seq<HeaderLine>) {
    && RequestOk(l) && !l.meth.CONNECT? && (forall i :: 0 <= i < |hs| ==> LineOk(hs[i]))
    && !LinesFields(R.NO_FIELDS, hs).upgrade
    && q.nread + |PrintRequestLine(l)| + |Head(hs)| <= MAX_HEADER_SIZE
  }

  /** Any request line within the limit. */
  lemma LineFits(q: Parser, x: Inbox, l: RequestLine)
    requires AwaitsRequest(q) && RequestOk(l) && q.nread + |PrintRequestLine(l)| <= MAX_HEADER_SIZE
    requires Reports(x.cur, NO_TARGET) && !x.cur.lastIsField
    ensures AtHeaders(Feed(q, PrintRequestLine(l)), x, AfterLine(q, l), WithTarget(R.Began(x.cur), l.target))
    ensures Inv(AfterLine(q, l)) && FieldsOf(AfterLine(q, l)) == R.NO_FIELDS
  {
    hide Inv, Feed, FreeFeed, RequestOk, PrintRequestLine, Collect;
    LineAndTarget(q, x, l);
    ShortFeed(q, PrintRequestLine(l));
    AfterLineInv(q, l);
  }

  lemma LineRead(q: Parser, x: Inbox, l: RequestLine, hs: seq<HeaderLine>)
    requires AwaitsRequest(q) && HeadOk(q, l, hs) && Reports(x.cur, NO_TARGET) && !x.cur.lastIsField
    ensures AtHeaders(Feed(q, PrintRequestLine(l)), x, AfterLine(q, l), WithTarget(R.Began(x.cur), l.target))
    ensures Inv(AfterLine(q, l)) && FieldsOf(AfterLine(q, l)) == R.NO_FIELDS
  {
    hide Inv, Feed, FreeFeed, RequestOk, LineOk, PrintRequestLine, Head, LinesFields, Collect;
    LineFits(q, x, l);
  }

  /** A request comes back: method, target, version, headers, and a body of either kind. */
  lemma RequestRoundTrip(q: Parser, x: Inbox, l: RequestLine, hs: seq<HeaderLine>, b: Body)
    requires AwaitsRequest(q) && HeadOk(q, l, hs) && Reports(x.cur, NO_TARGET) && !x.cur.lastIsField
    requires BodyOk(b, LinesFields(R.NO_FIELDS, hs))
    ensures Finished(Feed(q, PrintRequestLine(l) + (Head(hs) + PrintBody(b))), AfterLine(q, l), x,
                     if Keeps(l, LastFields(b, LinesFields(R.NO_FIELDS, hs))) then StartReq else Dead, Carried(b),
                     WithWholeBody(Asked(l, hs, x.cur), b))
  {
    hide Inv, Feed, RequestOk, LineOk, PrintRequestLine, Head, LinesFields, WithLines, SummaryOf, NewMessage, Keeps,
         WithTarget, Collect, AfterLine, WithWholeBody, BodyOk, PrintBody, LastFields, Carried;
    LineRead(q, x, l, hs);
    LineFacts(q, l);
    var q1, y := AfterLine(q, l), Inbox(x.done, WithTarget(R.Began(x.cur), l.target));
    TargetSettled(x.cur, l.target);
    WholeMessage(q1, y, hs, b);
    RequestSums(q, l, LinesFields(R.NO_FIELDS, hs));
    RequestSums(q, l, LastFields(b, LinesFields(R.NO_FIELDS, hs)));
    FeedTwice(q, x, PrintRequestLine(l), Head(hs) + PrintBody(b));
  }

  lemma LineFacts(q: Parser, l: RequestLine)
    requires AwaitsRequest(q) && RequestOk(l)
    ensures var q1 := AfterLine(q, l);
            && q1.state.HeaderFieldStart? && q1.nread == q.nread + |PrintRequestLine(l)| && q1.meth == l.meth
            && !q1.upgrade && !q1.flags.trailing && q1.kind.Request?
  {
    hide Inv, PrintRequestLine, Decimal, TargetForm;
  }

  lemma TargetSettled(m: Message, t: Target)
    requires !m.lastIsField
    ensures !WithTarget(R.Began(m), t).lastIsField
  {
    hide Text;
  }

  // ----- Requests in a row -----

  datatype Sent = Sent(line: RequestLine, headers: seq<HeaderLine>, body: Body)

  /** A request after which the connection is kept. */
  ghost predicate SentOk(r: Sent) {
    && RequestOk(r.line) && !r.line.meth.CONNECT? && (forall i :: 0 <= i < |r.headers| ==> LineOk(r.headers[i]))
    && var g := LinesFields(R.NO_FIELDS, r.headers);
       !g.upgrade && BodyOk(r.body, g) && Keeps(r.line, LastFields(r.body, g))
  }

  function HeadSize(r: Sent): nat { |PrintRequestLine(r.line)| + |Head(r.headers)| }

  /** Requests in a row, within the header limit; `n` header bytes have been counted. */
  ghost predicate AllSent(n: nat, rs: seq<Sent>)
    decreases |rs|
  {
    rs == [] || (SentOk(rs[0]) && n + HeadSize(rs[0]) <= MAX_HEADER_SIZE && AllSent(Carried(rs[0].body), rs[1..]))
  }

  function PrintSent(r: Sent): string { PrintRequestLine(r.line) + (Head(r.headers) + PrintBody(r.body)) }

  function PrintAll(rs: seq<Sent>): string {
    if rs == [] then [] else PrintSent(rs[0]) + PrintAll(rs[1..])
  }

  function MessageOf(r: Sent): Message
    requires SentOk(r)
  {
    hide LinesFields, RequestOk, LineOk, BodyOk;
    WithWholeBody(Asked(r.line, r.headers, EMPTY), r.body)
  }

  function MessagesOf(n: nat, rs: seq<Sent>): seq<Message>
    requires AllSent(n, rs)
    decreases |rs|
  {
    hide SentOk;
    if rs == [] then [] else [MessageOf(rs[0])] + MessagesOf(Carried(rs[0].body), rs[1..])
  }

  /** The header bytes that are still counted after all of them. */
  function CarriedBy(n: nat, rs: seq<Sent>): nat
    decreases |rs|
  {
    if rs == [] then n else CarriedBy(Carried(rs[0].body), rs[1..])
  }

  lemma OneSent(q: Parser, x: Inbox, r: Sent)
    requires AwaitsRequest(q) && q.nread + HeadSize(r) <= MAX_HEADER_SIZE && x.cur == EMPTY && SentOk(r)
    ensures var run := Feed(q, PrintSent(r));
            && run.Consumed? && AwaitsRequest(run.q) && run.q.nread <= Carried(r.body)
            && Collect(x, run.events) == Inbox(x.done + [MessageOf(r)], EMPTY)
  {
    hide Inv, Feed, RequestOk, LineOk, PrintRequestLine, Head, LinesFields, Keeps, WithTarget, Collect, AfterLine,
         Asked, BodyOk, PrintBody, LastFields, WithWholeBody, Carried;
    NoTargetText();
    LineFacts(q, r.line);
    RequestRoundTrip(q, x, r.line, r.headers, r.body);
  }

  /** Pipelined requests: any number of requests in one stream, with bodies of either kind,
      come back one by one. */
  lemma {:induction false} RequestsRoundTrip(q: Parser, x: Inbox, n: nat, rs: seq<Sent>)
    requires AwaitsRequest(q) && q.nread <= n && x.cur == EMPTY && AllSent(n, rs)
    ensures var run := Feed(q, PrintAll(rs));
            && run.Consumed? && AwaitsRequest(run.q) && run.q.nread <= CarriedBy(n, rs)
            && Collect(x, run.events) == Inbox(x.done + MessagesOf(n, rs), EMPTY)
    decreases |rs|
  {
    hide Feed, SentOk, PrintSent, MessageOf, AwaitsRequest, Collect, HeadSize, Carried, PrintAll, MessagesOf, CarriedBy, AllSent;
    if rs == [] {
      NoneSent(n);
      FeedEmpty(q);
      CollectNone(x);
      assert x.done + [] == x.done;
    } else {
      NextSent(n, rs);
      OneSent(q, x, rs[0]);
      var m, k := MessageOf(rs[0]), Carried(rs[0].body);
      RequestsRoundTrip(Feed(q, PrintSent(rs[0])).q, Inbox(x.done + [m], EMPTY), k, rs[1..]);
      FeedTwice(q, x, PrintSent(rs[0]), PrintAll(rs[1..]));
      assert x.done + [m] + MessagesOf(k, rs[1..]) == x.done + ([m] + MessagesOf(k, rs[1..]));
    }
  }

  lemma NoneSent(n: nat)
    ensures AllSent(n, []) && PrintAll([]) == [] && MessagesOf(n, []) == [] && CarriedBy(n, []) == n
  {
  }

  lemma NextSent(n: nat, rs: seq<Sent>)
    requires rs != [] && AllSent(n, rs)
    ensures SentOk(rs[0]) && n + HeadSize(rs[0]) <= MAX_HEADER_SIZE && AllSent(Carried(rs[0].body), rs[1..])
    ensures MessagesOf(n, rs) == [MessageOf(rs[0])] + MessagesOf(Carried(rs[0].body), rs[1..])
    ensures CarriedBy(n, rs) == CarriedBy(Carried(rs[0].body), rs[1..])
    ensures PrintAll(rs) == PrintSent(rs[0]) + PrintAll(rs[1..])
  {
    hide SentOk, PrintSent, MessageOf, HeadSize, Carried;
  }

  // ----- A message without a length -----

  /** A message that declares no length waits for 2^64 - 1 bytes: whatever follows the
      headers is its body, and it does not complete. */
  lemma UnsizedWaits(q: Parser, x: Inbox, l: RequestLine, hs: seq<HeaderLine>, more: string)
    requires AwaitsRequest(q) && HeadOk(q, l, hs) && Reports(x.cur, NO_TARGET) && !x.cur.lastIsField
    requires LinesFields(R.NO_FIELDS, hs).length == SIZE_MODULUS - 1 && !LinesFields(R.NO_FIELDS, hs).chunked
    requires 0 < |more| < SIZE_MODULUS - 1
    ensures var run := Feed(q, PrintRequestLine(l) + (Head(hs) + more));
            && run.Consumed? && run.q.state.BodyIdentity?
            && Collect(x, run.events) == Inbox(x.done, WithBody(Asked(l, hs, x.cur), more))
  {
    hide Inv, Feed, RequestOk, LineOk, PrintRequestLine, Head, LinesFields, WithLines, SummaryOf, NewMessage, Keeps,
         WithTarget, Collect, AfterLine;
    LineRead(q, x, l, hs);
    LineFacts(q, l);
    var q1, y := AfterLine(q, l), Inbox(x.done, WithTarget(R.Began(x.cur), l.target));
    TargetSettled(x.cur, l.target);
    HeadRun(q1, y, hs);
    RequestSums(q, l, LinesFields(R.NO_FIELDS, hs));
    var q2 := Feed(q1, Head(hs)).q;
    IdentityRun(q2, more, Inbox(x.done, Asked(l, hs, x.cur)));
    FeedTwice(q1, y, Head(hs), more);
    FeedTwice(q, x, PrintRequestLine(l), Head(hs) + more);
  }
}
