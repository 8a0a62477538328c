/** What is reported of a request target: the path, the query and the fragment are
    disjoint pieces of the URL, in order, and only separators lie between them. */
module Targets {
  import opened Syntax
  import opened Machine
  import opened Messages
  import opened Marks
  import opened Frames
  import opened Invariant
  import opened Bodies
  import opened Split

  /** A URL in pieces: `marks` question marks before the query, `hashes` number signs
      before the fragment. */
  datatype Target = Target(authority: string, path: string, marks: nat, query: string, hashes: nat, fragment: string)

  const NO_TARGET := Target("", "", 0, "", 0, "")

  function Text(t: Target): string {
    t.authority + t.path + Repeat('?', t.marks) + t.query + Repeat('#', t.hashes) + t.fragment
  }

  predicate IsAuthorityChar(ch: char) {
    IsLetter(ch) || IsDigit(ch) || ch == ':' || ch == '/' || ch == '.' || ch == '-'
  }

  predicate AuthorityOk(s: string) {
    (s != [] ==> IsLetter(s[0])) && forall i :: 0 <= i < |s| ==> IsAuthorityChar(s[i])
  }

  /** No '?', no '#' and no space in the path; no '#' and no space in the query. */
  predicate TargetOk(t: Target) {
    && AuthorityOk(t.authority)
    && (t.path != [] ==> t.path[0] == '/' || t.path[0] == '*')
    && (forall i :: 0 <= i < |t.path| ==> IsUrlChar(t.path[i]))
    && (forall i :: 0 <= i < |t.query| ==> IsUrlChar(t.query[i]) || t.query[i] == '?')
    && (t.query != [] ==> t.marks > 0 && t.query[0] != '?')
    && (forall i :: 0 <= i < |t.fragment| ==> IsUrlChar(t.fragment[i]) || t.fragment[i] == '?' || t.fragment[i] == '#')
    && (t.fragment != [] ==> t.hashes > 0 && t.fragment[0] != '#')
    && (t.marks > 0 || t.hashes > 0 ==> t.path != [])
  }

  predicate Reports(m: Message, t: Target) {
    m.url == Text(t) && m.path == t.path && m.query == t.query && m.fragment == t.fragment
  }

  // ----- How far a state has read -----

  predicate Early(s: State) { s.Dead? || InStart(s) || InStatusLine(s) || s.ReqSpacesBeforeUrl? }

  predicate InTarget(s: State) { InUrl(s) && !s.ReqSpacesBeforeUrl? }

  predicate ReadTo(s: State, t: Target) {
    && TargetOk(t)
    && match s
       case ReqSchema | ReqSchemaSlash | ReqSchemaSlashSlash | ReqHost | ReqPort =>
         t == Target(t.authority, "", 0, "", 0, "") && t.authority != []
       case ReqPath => t.marks == 0 && t.query == [] && t.hashes == 0 && t.fragment == [] && t.path != []
       case ReqQueryStringStart => t.marks > 0 && t.query == [] && t.hashes == 0 && t.fragment == []
       case ReqQueryString => t.query != [] && t.hashes == 0 && t.fragment == []
       case ReqFragmentStart => t.hashes > 0 && t.fragment == []
       case ReqFragment => t.fragment != []
       case _ => Early(s) ==> t == NO_TARGET
  }

  /** The target after one more byte that belongs to it. */
  function Grown(t: Target, s': State, ch: char): Target {
    match s'
    case ReqSchema | ReqSchemaSlash | ReqSchemaSlashSlash | ReqHost | ReqPort => t.(authority := t.authority + [ch])
    case ReqPath => t.(path := t.path + [ch])
    case ReqQueryStringStart => t.(marks := t.marks + 1)
    case ReqQueryString => t.(query := t.query + [ch])
    case ReqFragmentStart => t.(hashes := t.hashes + 1)
    case ReqFragment => t.(fragment := t.fragment + [ch])
    case _ => t
  }

  lemma RepeatSnoc(ch: char, n: nat)
    ensures Repeat(ch, n + 1) == Repeat(ch, n) + [ch]
  {
  }

  /** A byte of the target goes to the end of the URL. */
  lemma GrownText(t: Target, s': State, ch: char)
    requires InTarget(s')
    requires match s'
             case ReqSchema | ReqSchemaSlash | ReqSchemaSlashSlash | ReqHost | ReqPort =>
               t == Target(t.authority, "", 0, "", 0, "")
             case ReqPath => t.marks == 0 && t.query == [] && t.hashes == 0 && t.fragment == []
             case ReqQueryStringStart => ch == '?' && t.query == [] && t.hashes == 0 && t.fragment == []
             case ReqQueryString => t.hashes == 0 && t.fragment == []
             case ReqFragmentStart => ch == '#' && t.fragment == []
             case _ => true
    ensures Text(Grown(t, s', ch)) == Text(t) + [ch]
  {
    RepeatSnoc('?', t.marks);
    RepeatSnoc('#', t.hashes);
    assert Repeat('?', 0) == [] && Repeat('#', 0) == [];
  }

  predicate InAuthority(s: State) {
    s.ReqSchema? || s.ReqSchemaSlash? || s.ReqSchemaSlashSlash? || s.ReqHost? || s.ReqPort?
  }

  /** The moves inside a target. */
  predicate Goes(s: State, ch: char, s': State) {
    match s'
    case ReqSpacesBeforeUrl => s == s' && ch == ' '
    case ReqSchema => IsLetter(ch) && (s.ReqSpacesBeforeUrl? || s.ReqSchema?)
    case ReqSchemaSlash | ReqSchemaSlashSlash | ReqHost | ReqPort => IsAuthorityChar(ch) && InAuthority(s)
    case ReqPath =>
      || (s.ReqPath? && IsUrlChar(ch))
      || (s.ReqSpacesBeforeUrl? && (ch == '/' || ch == '*'))
      || (InAuthority(s) && ch == '/')
    case ReqQueryStringStart => ch == '?' && (s.ReqPath? || s.ReqQueryStringStart?)
    case ReqQueryString => (s.ReqQueryStringStart? && IsUrlChar(ch)) || (s.ReqQueryString? && (IsUrlChar(ch) || ch == '?'))
    case ReqFragmentStart =>
      ch == '#' && (s.ReqPath? || s.ReqQueryStringStart? || s.ReqQueryString? || s.ReqFragmentStart?)
    case ReqFragment =>
      || (s.ReqFragmentStart? && (IsUrlChar(ch) || ch == '?'))
      || (s.ReqFragment? && (IsUrlChar(ch) || ch == '?' || ch == '#'))
    case _ => InTarget(s) && (ch == ' ' || ch == CR || ch == LF)
  }

  lemma AuthorityGoes(q: Parser, ch: char)
    requires q.state.ReqSpacesBeforeUrl? || InAuthority(q.state)
    ensures var o := UrlByte(q, ch); o.Next? ==> Goes(q.state, ch, o.q.state)
  {
  }

  lemma PathGoes(q: Parser, ch: char)
    requires q.state.ReqPath? || q.state.ReqQueryStringStart?
    ensures var o := UrlByte(q, ch); o.Next? ==> Goes(q.state, ch, o.q.state)
  {
  }

  lemma QueryGoes(q: Parser, ch: char)
    requires q.state.ReqQueryString? || q.state.ReqFragmentStart? || q.state.ReqFragment?
    ensures var o := UrlByte(q, ch); o.Next? ==> Goes(q.state, ch, o.q.state)
  {
  }

  lemma AuthorityMore(t: Target, ch: char)
    requires t == Target(t.authority, "", 0, "", 0, "") && TargetOk(t) && IsAuthorityChar(ch)
    requires t.authority == [] ==> IsLetter(ch)
    ensures TargetOk(t.(authority := t.authority + [ch]))
  {
  }

  /** Before the path only the authority has been read. */
  lemma BeforePath(s: State, t: Target)
    requires s.ReqSpacesBeforeUrl? || InAuthority(s)
    ensures ReadTo(s, t) <==>
              && TargetOk(t) && t == Target(t.authority, "", 0, "", 0, "")
              && (t.authority == [] <==> s.ReqSpacesBeforeUrl?)
  {
    hide TargetOk;
  }

  lemma AuthorityFrom(s: State, ch: char, s': State)
    requires Goes(s, ch, s') && InAuthority(s')
    ensures InAuthority(s) || (s.ReqSpacesBeforeUrl? && IsLetter(ch))
    ensures IsAuthorityChar(ch)
  {
  }

  lemma GrowAuthority(s: State, t: Target, ch: char, s': State)
    requires ReadTo(s, t) && Goes(s, ch, s') && InUrl(s) && InAuthority(s')
    ensures ReadTo(s', Grown(t, s', ch)) && Text(Grown(t, s', ch)) == Text(t) + [ch]
  {
    hide Text, TargetOk, IsLetter, IsAuthorityChar, ReadTo, Goes;
    AuthorityFrom(s, ch, s');
    BeforePath(s, t);
    AuthorityMore(t, ch);
    GrownText(t, s', ch);
    BeforePath(s', Grown(t, s', ch));
  }

  lemma PathMore(t: Target, ch: char)
    requires TargetOk(t) && t.marks == 0 && t.query == [] && t.hashes == 0 && t.fragment == []
    requires if t.path == [] then ch == '/' || ch == '*' else IsUrlChar(ch)
    ensures TargetOk(t.(path := t.path + [ch]))
  {
  }

  lemma GrowPath(s: State, t: Target, ch: char, s': State)
    requires ReadTo(s, t) && Goes(s, ch, s') && InUrl(s) && s'.ReqPath?
    ensures ReadTo(s', Grown(t, s', ch)) && Text(Grown(t, s', ch)) == Text(t) + [ch]
  {
    hide Text, TargetOk, IsUrlChar;
    PathMore(t, ch);
    GrownText(t, s', ch);
  }

  lemma QueryMore(t: Target, ch: char)
    requires TargetOk(t) && t.hashes == 0 && t.fragment == [] && t.path != []
    ensures t.query == [] ==> TargetOk(t.(marks := t.marks + 1))
    ensures t.marks > 0 && (IsUrlChar(ch) || (ch == '?' && t.query != [])) ==> TargetOk(t.(query := t.query + [ch]))
  {
  }

  lemma InQuery(s: State, t: Target)
    requires ReadTo(s, t) && (s.ReqPath? || s.ReqQueryStringStart? || s.ReqQueryString?)
    ensures TargetOk(t) && t.path != [] && t.hashes == 0 && t.fragment == []
    ensures s.ReqPath? || s.ReqQueryStringStart? ==> t.query == []
    ensures s.ReqQueryStringStart? ==> t.marks > 0
    ensures s.ReqQueryString? ==> t.query != [] && t.marks > 0
  {
  }

  lemma GrowQuery(s: State, t: Target, ch: char, s': State)
    requires ReadTo(s, t) && Goes(s, ch, s') && InUrl(s) && (s'.ReqQueryStringStart? || s'.ReqQueryString?)
    ensures ReadTo(s', Grown(t, s', ch)) && Text(Grown(t, s', ch)) == Text(t) + [ch]
  {
    hide Text, TargetOk, IsUrlChar;
    InQuery(s, t);
    QueryMore(t, ch);
    GrownText(t, s', ch);
  }

  lemma HashesOk(t: Target)
    requires TargetOk(t) && t.path != []
    ensures TargetOk(t.(hashes := t.hashes + 1))
  {
  }

  lemma FragmentOk(t: Target, ch: char)
    requires TargetOk(t) && t.hashes > 0
    requires if t.fragment == [] then IsUrlChar(ch) || ch == '?' else IsUrlChar(ch) || ch == '?' || ch == '#'
    ensures TargetOk(t.(fragment := t.fragment + [ch]))
  {
  }

  lemma PathIs(s: State, t: Target)
    requires ReadTo(s, t) && !Early(s) && InTarget(s) && !InAuthority(s)
    ensures t.path != []
  {
  }

  lemma HashesSeen(s: State, t: Target)
    requires ReadTo(s, t) && (s.ReqFragmentStart? || s.ReqFragment?)
    ensures t.hashes > 0
  {
  }

  lemma GrowHashes(s: State, t: Target, ch: char, s': State)
    requires ReadTo(s, t) && Goes(s, ch, s') && InUrl(s) && s'.ReqFragmentStart?
    ensures ReadTo(s', Grown(t, s', ch)) && Text(Grown(t, s', ch)) == Text(t) + [ch]
  {
    hide Text, TargetOk, AuthorityOk;
    PathIs(s, t);
    HashesOk(t);
    GrownText(t, s', ch);
  }

  lemma GrowFragment(s: State, t: Target, ch: char, s': State)
    requires ReadTo(s, t) && Goes(s, ch, s') && InUrl(s) && s'.ReqFragment?
    ensures ReadTo(s', Grown(t, s', ch)) && Text(Grown(t, s', ch)) == Text(t) + [ch]
  {
    hide Text, TargetOk;
    if s.ReqFragmentStart? || s.ReqFragment? { HashesSeen(s, t); FragmentOk(t, ch); }
    GrownText(t, s', ch);
  }

  lemma AfterTarget(s: State, t: Target, ch: char, s': State)
    requires ReadTo(s, t) && Goes(s, ch, s') && InUrl(s) && UrlNext(s') && !InTarget(s')
    ensures ReadTo(s', t) && Grown(t, s', ch) == t
  {
  }

  lemma Grow(s: State, t: Target, ch: char, s': State)
    requires ReadTo(s, t) && Goes(s, ch, s') && InUrl(s) && UrlNext(s')
    ensures ReadTo(s', Grown(t, s', ch))
    ensures InTarget(s') ==> Text(Grown(t, s', ch)) == Text(t) + [ch]
  {
    hide Text, Goes, ReadTo, Grown, UrlNext, InUrl;
    if InAuthority(s') { GrowAuthority(s, t, ch, s'); }
    else if s'.ReqPath? { GrowPath(s, t, ch, s'); }
    else if s'.ReqQueryStringStart? || s'.ReqQueryString? { GrowQuery(s, t, ch, s'); }
    else if s'.ReqFragmentStart? { GrowHashes(s, t, ch, s'); }
    else if s'.ReqFragment? { GrowFragment(s, t, ch, s'); }
    else { TargetOver(s'); AfterTarget(s, t, ch, s'); }
  }

  lemma TargetOver(s: State)
    requires !InAuthority(s) && !s.ReqPath? && !s.ReqQueryStringStart? && !s.ReqQueryString?
             && !s.ReqFragmentStart? && !s.ReqFragment?
    ensures !InTarget(s)
  {
  }

  /** A byte in the target extends exactly one piece; a byte after it extends none. */
  lemma TargetMoves(q: Parser, t: Target, ch: char)
    requires InUrl(q.state) && ReadTo(q.state, t)
    ensures var o := UrlByte(q, ch);
            o.Next? ==>
              && ReadTo(o.q.state, Grown(t, o.q.state, ch))
              && (InTarget(o.q.state) ==> Text(Grown(t, o.q.state, ch)) == Text(t) + [ch])
  {
    hide Text, UrlByte, Goes, ReadTo, Grown, UrlNext;
    UrlFrame(q, ch);
    if q.state.ReqSpacesBeforeUrl? || InAuthority(q.state) { AuthorityGoes(q, ch); }
    else if q.state.ReqPath? || q.state.ReqQueryStringStart? { PathGoes(q, ch); }
    else { QueryGoes(q, ch); }
    var o := UrlByte(q, ch);
    if o.Next? { Grow(q.state, t, ch, o.q.state); }
  }

  // ----- What the application collects -----

  /** The message with the byte in the pieces that are open after it. */
  function Kept(m: Message, s': State, ch: char): Message {
    if s'.ReqPath? then AddData(AddData(m, Path, [ch]), Url, [ch])
    else if s'.ReqQueryString? then AddData(AddData(m, Query, [ch]), Url, [ch])
    else if s'.ReqFragment? then AddData(AddData(m, Fragment, [ch]), Url, [ch])
    else if InTarget(s') then AddData(m, Url, [ch])
    else m
  }

  lemma KeptReports(m: Message, t: Target, s': State, ch: char)
    requires Reports(m, t) && (InTarget(s') ==> Text(Grown(t, s', ch)) == Text(t) + [ch])
    ensures Reports(Kept(m, s', ch), Grown(t, s', ch))
  {
    hide Text;
  }

  predicate TargetSlice(k: Slice) { k.Url? || k.Path? || k.Query? || k.Fragment? }

  /** Slices that are flushed carry no byte: their bytes have been counted one by one. */
  lemma {:induction false} FlushesAreEmpty(x: Inbox, signals: seq<Signal>, ch: char)
    requires forall i :: 0 <= i < |signals| ==> signals[i].Flush? && TargetSlice(signals[i].slice)
    ensures Collect(x, SignalEvents(signals, ch)) == x
    decreases |signals|
  {
    if signals != [] {
      var m := x.cur;
      assert m.url + [] == m.url && m.path + [] == m.path && m.query + [] == m.query && m.fragment + [] == m.fragment;
      assert Receive(x, Data(signals[0].slice, [])) == x;
      assert SignalEvents(signals, ch)[1..] == SignalEvents(signals[1..], ch);
      FlushesAreEmpty(x, signals[1..], ch);
    }
  }

  /** The events of the slices that are open in the target. */
  lemma KeptEvents(x: Inbox, k: Slice, ch: char)
    ensures Collect(x, [Data(Url, [ch])]) == Inbox(x.done, AddData(x.cur, Url, [ch]))
    ensures Collect(x, [Data(k, [ch]), Data(Url, [ch])]) == Inbox(x.done, AddData(AddData(x.cur, k, [ch]), Url, [ch]))
  {
    hide Collect, AddData;
    Collect1(x, Data(Url, [ch]));
    Collect2(x, Data(k, [ch]), Data(Url, [ch]));
  }

  lemma OpenIs(s: State)
    requires UrlNext(s)
    ensures Open(s) == if s.ReqPath? then [Path, Url]
                       else if s.ReqQueryString? then [Query, Url]
                       else if s.ReqFragment? then [Fragment, Url]
                       else if InTarget(s) then [Url] else []
  {
  }

  lemma OpenKept(x: Inbox, s': State, ch: char)
    requires UrlNext(s')
    ensures Collect(x, OpenEvents(Open(s'), ch)) == Inbox(x.done, Kept(x.cur, s', ch))
  {
    hide Collect, Open, AddData, UrlNext, InTarget;
    OpenIs(s');
    OpenEventsAre(Open(s'), ch);
    KeptEvents(x, if s'.ReqPath? then Path else if s'.ReqQueryString? then Query else Fragment, ch);
    CollectNone(x);
  }

  lemma UrlFlushes(q: Parser, ch: char)
    requires InUrl(q.state)
    ensures var o := UrlByte(q, ch);
            o.Next? ==> forall i :: 0 <= i < |o.signals| ==> o.signals[i].Flush? && TargetSlice(o.signals[i].slice)
  {
  }

  /** The callbacks of a byte of the target. */
  lemma UrlCollects(q: Parser, x: Inbox, ch: char)
    requires InUrl(q.state) && UrlByte(q, ch).Next? && UrlNext(UrlByte(q, ch).q.state)
    ensures var o := UrlByte(q, ch);
            Collect(x, ByteEvents(o.q, o.signals, ch)) == Inbox(x.done, Kept(x.cur, o.q.state, ch))
  {
    hide UrlByte, Collect, SignalEvents, OpenEvents, Open, Kept, UrlNext, InUrl;
    var o := UrlByte(q, ch);
    UrlFlushes(q, ch);
    FlushesAreEmpty(x, o.signals, ch);
    OpenKept(x, o.q.state, ch);
    CollectAppend(x, SignalEvents(o.signals, ch), OpenEvents(Open(o.q.state), ch));
  }

  lemma CountsHere(q: Parser)
    requires InUrl(q.state)
    ensures Count(q) == q.(nread := q.nread + 1)
  {
  }

  // ----- Outside the target -----

  predicate Completes(signals: seq<Signal>) { signals != [] && signals[|signals| - 1].MessageComplete? }

  /** Nothing of a target is told, and a message completes exactly when the parser goes
      back to a state before a message. */
  predicate Quiet(s: State, o: Outcome) {
    o.Next? ==>
      && !InTarget(o.q.state)
      && (forall i :: 0 <= i < |o.signals| && o.signals[i].Flush? ==> !TargetSlice(o.signals[i].slice))
      && (forall i :: 0 <= i < |o.signals| - 1 ==> !o.signals[i].MessageComplete?)
      && (Completes(o.signals) <==> !Early(s) && Early(o.q.state))
      && (Completes(o.signals) ==> o.q.state.Dead? || BetweenMessages(o.q.state))
  }

  lemma StartQuiet(q: Parser, ch: char)
    requires InStart(q.state)
    ensures Quiet(q.state, StartByte(q, ch))
  {
    hide StartByte;
    StartFrame(q, ch);
    StartSignals(q, ch);
  }

  lemma StatusLineQuiet(q: Parser, ch: char)
    requires InStatusLine(q.state)
    ensures Quiet(q.state, StatusLineByte(q, ch))
  {
    hide StatusLineByte;
    StatusLineFrame(q, ch);
  }

  lemma RequestVersionQuiet(q: Parser, ch: char)
    requires InRequestVersion(q.state)
    ensures Quiet(q.state, RequestVersionByte(q, ch))
  {
    hide RequestVersionByte;
    RequestVersionFrame(q, ch);
  }

  lemma EndQuiet(q: Parser, ch: char)
    requires q.state.HeadersAlmostDone?
    ensures Quiet(q.state, EndOfHeaders(q, ch))
  {
    hide NewMessage, SummaryOf;
    NewMessageState(q);
    NewMessageState(q.(nread := 0, upgrade := q.upgrade || q.flags.upgrade || q.meth == CONNECT));
  }

  lemma LineStartQuiet(q: Parser, ch: char)
    requires q.state.HeaderFieldStart?
    ensures Quiet(q.state, HeaderNameByte(q, ch))
  {
    hide EndOfHeaders, Token;
    EndQuiet(q.(state := HeadersAlmostDone), ch);
  }

  lemma NameQuietly(q: Parser, ch: char)
    requires q.state.HeaderField? && Inv(q)
    ensures Quiet(q.state, HeaderNameByte(q, ch))
  {
    hide NameByte, Token, EndOfHeaders, Inv;
    HeaderPhases(q);
    NameFrame(q, ch, Token(ch));
  }

  lemma ValueQuietly(q: Parser, ch: char)
    requires InHeaderValue(q.state) && Inv(q)
    ensures Quiet(q.state, HeaderValueByte(q, ch))
  {
    hide HeaderValueByte, Inv;
    ValueMoves(q, ch);
  }

  lemma IdentityQuiet(q: Parser, ch: char)
    requires q.state.BodyIdentity? || q.state.BodyIdentityEof?
    ensures Quiet(q.state, BodyStep(q, ch))
  {
    hide NewMessage;
    if q.contentLength > 0 { NewMessageState(q.(contentLength := q.contentLength - 1)); }
  }

  lemma ChunkQuiet(q: Parser, ch: char)
    requires InBody(q.state) && !q.state.BodyIdentity? && !q.state.BodyIdentityEof?
    ensures Quiet(q.state, BodyStep(q, ch))
  {
    hide Unhex, Wrap;
  }

  lemma BodyQuiet(q: Parser, ch: char)
    requires InBody(q.state)
    ensures Quiet(q.state, BodyStep(q, ch))
  {
    hide BodyStep, Quiet;
    if q.state.BodyIdentity? || q.state.BodyIdentityEof? { IdentityQuiet(q, ch); } else { ChunkQuiet(q, ch); }
  }

  lemma StepQuiet(q: Parser, ch: char)
    requires Inv(q) && !InUrl(q.state)
    ensures Quiet(q.state, FreeStep(q, ch))
  {
    hide StartByte, StatusLineByte, RequestVersionByte, HeaderNameByte, HeaderValueByte, BodyStep, EndOfHeaders, Inv, Quiet;
    var c := Count(q);
    if InBody(q.state) { BodyQuiet(c, ch); }
    else {
      CountSafe(q);
      if InStart(q.state) { StartQuiet(c, ch); }
      else if InStatusLine(q.state) { StatusLineQuiet(c, ch); }
      else if InRequestVersion(q.state) { RequestVersionQuiet(c, ch); }
      else if q.state.HeaderFieldStart? { LineStartQuiet(c, ch); }
      else if q.state.HeaderField? { NameQuietly(c, ch); }
      else if InHeaderValue(q.state) { ValueQuietly(c, ch); }
      else if q.state.HeadersAlmostDone? { EndQuiet(c, ch); }
      else { ErrorQuiet(q.state); }
    }
  }

  lemma ErrorQuiet(s: State)
    ensures Quiet(s, Error)
  {
  }

  // ----- Whole runs -----

  predicate SameTarget(m: Message, m': Message) {
    m'.url == m.url && m'.path == m.path && m'.query == m.query && m'.fragment == m.fragment
  }

  /** A callback that says nothing about the target and ends no message. */
  predicate Aside(e: Event) { !e.Complete? && (e.Data? ==> !TargetSlice(e.slice)) }

  lemma {:induction false} TargetStays(x: Inbox, es: seq<Event>)
    requires forall i :: 0 <= i < |es| ==> Aside(es[i])
    ensures var y := Collect(x, es); y.done == x.done && SameTarget(x.cur, y.cur)
    decreases |es|
  {
    if es != [] { TargetStays(Receive(x, es[0]), es[1..]); }
  }

  predicate Beside(a: Signal) { !a.MessageComplete? && (a.Flush? ==> !TargetSlice(a.slice)) }

  lemma {:induction false} QuietEvents(signals: seq<Signal>, ch: char)
    requires forall i :: 0 <= i < |signals| ==> Beside(signals[i])
    ensures var es := SignalEvents(signals, ch);
            forall i :: 0 <= i < |es| ==> Aside(es[i])
    decreases |signals|
  {
    if signals != [] {
      QuietEvents(signals[1..], ch);
      var es := SignalEvents(signals, ch);
      assert es[1..] == SignalEvents(signals[1..], ch);
      forall i | 0 <= i < |es| ensures Aside(es[i]) {
        if i > 0 { assert es[i] == es[1..][i - 1]; }
      }
    }
  }

  lemma {:induction false} SignalEventsAppend(a: seq<Signal>, b: seq<Signal>, ch: char)
    ensures SignalEvents(a + b, ch) == SignalEvents(a, ch) + SignalEvents(b, ch)
    decreases |a|
  {
    if a == [] {
      assert a + b == b;
    } else {
      assert (a + b)[0] == a[0] && (a + b)[1..] == a[1..] + b;
      SignalEventsAppend(a[1..], b, ch);
    }
  }

  /** Every finished message, and the one under way, reports the pieces of its URL. */
  ghost predicate Decomposed(m: Message) { exists t :: TargetOk(t) && Reports(m, t) }

  ghost predicate SoFar(s: State, m: Message) { exists t :: ReadTo(s, t) && Reports(m, t) }

  ghost predicate AllDecomposed(s: State, x: Inbox) {
    SoFar(s, x.cur) && forall i :: 0 <= i < |x.done| ==> Decomposed(x.done[i])
  }

  lemma NoTargetText()
    ensures Text(NO_TARGET) == [] && TargetOk(NO_TARGET) && Reports(EMPTY, NO_TARGET)
  {
    assert Repeat('?', 0) == [] && Repeat('#', 0) == [];
  }

  lemma EarlyMessage(s: State)
    requires Early(s)
    ensures SoFar(s, EMPTY) && Open(s) == []
  {
    NoTargetText();
    assert ReadTo(s, NO_TARGET);
  }

  lemma MovesOn(s: State, s': State, t: Target)
    requires ReadTo(s, t) && !InTarget(s') && (!Early(s) ==> !Early(s'))
    ensures ReadTo(s', t)
  {
    NoTargetText();
  }

  lemma OnlyHeaderSlices(s: State)
    requires !InTarget(s)
    ensures forall i :: 0 <= i < |Open(s)| ==> !TargetSlice(Open(s)[i])
  {
  }

  lemma QuietBytes(s: State, signals: seq<Signal>, q': Parser, ch: char)
    requires Quiet(s, Next(q', signals)) && !Completes(signals)
    ensures var es := ByteEvents(q', signals, ch);
            forall i :: 0 <= i < |es| ==> Aside(es[i])
  {
    hide Open, InTarget, SignalEvents, OpenEvents;
    OnlyHeaderSlices(q'.state);
    forall i | 0 <= i < |signals| ensures Beside(signals[i]) {
      assert i < |signals| - 1 ==> !signals[i].MessageComplete?;
    }
    QuietEvents(signals, ch);
    OpenAside(Open(q'.state), ch);
    assert forall i :: 0 <= i < |SignalEvents(signals, ch)| ==> Aside(SignalEvents(signals, ch)[i]);
    assert forall i :: 0 <= i < |OpenEvents(Open(q'.state), ch)| ==> Aside(OpenEvents(Open(q'.state), ch)[i]);
    BothAside(SignalEvents(signals, ch), OpenEvents(Open(q'.state), ch));
  }

  lemma OpenAside(open: seq<Slice>, ch: char)
    requires forall i :: 0 <= i < |open| ==> !TargetSlice(open[i])
    ensures forall i :: 0 <= i < |OpenEvents(open, ch)| ==> Aside(OpenEvents(open, ch)[i])
  {
  }

  lemma BothAside(a: seq<Event>, b: seq<Event>)
    requires (forall i :: 0 <= i < |a| ==> Aside(a[i])) && (forall i :: 0 <= i < |b| ==> Aside(b[i]))
    ensures forall i :: 0 <= i < |a + b| ==> Aside((a + b)[i])
  {
  }

  lemma CompletingBytes(s: State, signals: seq<Signal>, q': Parser, ch: char, x: Inbox)
    requires Quiet(s, Next(q', signals)) && Completes(signals)
    ensures var y := Collect(x, ByteEvents(q', signals, ch));
            |y.done| == |x.done| + 1 && y.done[..|x.done|] == x.done && SameTarget(x.cur, y.done[|x.done|]) && y.cur == EMPTY
  {
    hide Open, InTarget, SignalEvents, TargetSlice, Early;
    EarlyOpens(q'.state);
    var pre := signals[..|signals| - 1];
    assert signals == pre + [MessageComplete];
    SignalEventsAppend(pre, [MessageComplete], ch);
    CompleteEvent(ch);
    forall i | 0 <= i < |pre| ensures Beside(pre[i]) {
      assert pre[i] == signals[i];
    }
    QuietEvents(pre, ch);
    TargetStays(x, SignalEvents(pre, ch));
    OpenEventsAre([], ch);
    var es := SignalEvents(signals, ch);
    assert es + [] == es;
    CollectAppend(x, SignalEvents(pre, ch), [Complete]);
    Collect1(Collect(x, SignalEvents(pre, ch)), Complete);
  }

  lemma EarlyOpens(s: State)
    ensures Early(s) ==> Open(s) == []
  {
  }

  lemma CompleteEvent(ch: char)
    ensures SignalEvents([MessageComplete], ch) == [Complete]
  {
    assert [MessageComplete][1..] == [];
  }

  lemma QuietStep(q: Parser, x: Inbox, ch: char)
    requires Inv(q) && !InUrl(q.state) && AllDecomposed(q.state, x)
    ensures var o := FreeStep(q, ch);
            o.Next? ==> AllDecomposed(o.q.state, Collect(x, ByteEvents(o.q, o.signals, ch)))
  {
    hide FreeStep, Inv, ByteEvents, TargetOk, Text, InTarget, Early, ReadTo;
    StepQuiet(q, ch);
    var o := FreeStep(q, ch);
    if o.Next? {
      var es := ByteEvents(o.q, o.signals, ch);
      var y := Collect(x, es);
      var t :| ReadTo(q.state, t) && Reports(x.cur, t);
      ReadOk(q.state, t);
      if Completes(o.signals) {
        CompletingBytes(q.state, o.signals, o.q, ch, x);
        assert Reports(y.done[|x.done|], t);
        EarlyMessage(o.q.state);
        forall i | 0 <= i < |y.done| ensures Decomposed(y.done[i]) {
          if i < |x.done| { assert y.done[i] == y.done[..|x.done|][i]; }
        }
      } else {
        QuietBytes(q.state, o.signals, o.q, ch);
        TargetStays(x, es);
        MovesOn(q.state, o.q.state, t);
        assert Reports(y.cur, t);
      }
    }
  }

  lemma ReadOk(s: State, t: Target)
    requires ReadTo(s, t)
    ensures TargetOk(t)
  {
  }

  lemma UrlStep(q: Parser, x: Inbox, ch: char)
    requires InUrl(q.state) && AllDecomposed(q.state, x)
    ensures var o := FreeStep(q, ch);
            o.Next? ==> AllDecomposed(o.q.state, Collect(x, ByteEvents(o.q, o.signals, ch)))
  {
    hide UrlByte, TargetOk, Text, ReadTo, SignalEvents, Collect, InUrl;
    var c := Count(q);
    UrlDispatch(q, ch);
    UrlFlushes(c, ch);
    UrlFrame(c, ch);
    var o := FreeStep(q, ch);
    if o.Next? {
      var t :| ReadTo(q.state, t) && Reports(x.cur, t);
      TargetMoves(c, t, ch);
      FlushesAreEmpty(x, o.signals, ch);
      CollectAppend(x, SignalEvents(o.signals, ch), OpenEvents(Open(o.q.state), ch));
      OpenKept(x, o.q.state, ch);
      KeptReports(x.cur, t, o.q.state, ch);
      assert ReadTo(o.q.state, Grown(t, o.q.state, ch));
    }
  }

  lemma UrlDispatch(q: Parser, ch: char)
    requires InUrl(q.state)
    ensures FreeStep(q, ch) == UrlByte(Count(q), ch)
  {
    hide UrlByte;
  }

  /** URL decomposition: in every run of any parser, every message the application has
      finished, and the one it is receiving, reports a path, a query and a fragment that
      are disjoint pieces of the reported URL, in order; the rest of the URL is the
      authority before the path and separators. */
  lemma {:induction false} RunDecomposed(q: Parser, x: Inbox, s: string)
    requires Inv(q) && AllDecomposed(q.state, x)
    ensures var r := FreeFeed(q, s);
            r.Consumed? ==> AllDecomposed(r.q.state, Collect(x, r.events))
    decreases |s|
  {
    hide FreeStep, Inv, AllDecomposed, ByteEvents;
    if s == [] {
      CollectNone(x);
    } else {
      FreeStepSafe(q, s[0]);
      if InUrl(q.state) { UrlStep(q, x, s[0]); } else { QuietStep(q, x, s[0]); }
      var o := FreeStep(q, s[0]);
      if o.Next? {
        var es := ByteEvents(o.q, o.signals, s[0]);
        RunDecomposed(o.q, Collect(x, es), s[1..]);
        CollectAppend(x, es, FreeFeed(o.q, s[1..]).events);
      }
    }
  }

  ghost predicate DoneDecomposed(x: Inbox) { forall i :: 0 <= i < |x.done| ==> Decomposed(x.done[i]) }

  lemma DoneIs(s: State, x: Inbox)
    requires AllDecomposed(s, x)
    ensures DoneDecomposed(x)
  {
    hide Decomposed, SoFar;
  }

  /** The message that another protocol ends. */
  lemma LastDecomposed(s: State, x: Inbox, summary: Summary)
    requires AllDecomposed(s, x)
    ensures DoneDecomposed(Collect(x, [HeadersDone(summary), Complete]))
  {
    hide Text, TargetOk;
    Collect2(x, HeadersDone(summary), Complete);
    var y := Collect(x, [HeadersDone(summary), Complete]);
    var t :| ReadTo(s, t) && Reports(x.cur, t);
    ReadOk(s, t);
    assert Reports(y.done[|x.done|], t);
    forall i | 0 <= i < |y.done| ensures Decomposed(y.done[i]) {
      if i < |x.done| { assert y.done[i] == x.done[i]; }
    }
  }

  /** The events of the byte that ends a run. */
  lemma StopEvents(q: Parser, ch: char)
    requires Inv(q) && OneByte(Step(q, ch), ch).Stopped?
    ensures var one := OneByte(Step(q, ch), ch);
            if one.reason.OtherProtocol?
            then LeavesAtEnd(q.state, FreeStep(q, ch)) && (exists summary :: one.events == [HeadersDone(summary), Complete])
                 && FreeStep(q, ch).Upgraded?
            else one.events == []
  {
    hide FreeStep, Inv, NamePhase, NameIndex, ValuePhase, ValueIndex, SummaryOf;
    HeaderPhases(q);
    var o := Step(q, ch);
    if o.Upgraded? {
      UpgradesAtEnd(q, ch);
      var c, m := HeadersComplete(SummaryOf(o.q)), MessageComplete;
      SameWithoutFlush([c, m], NO_MARKS, [], 0, ch);
      Notices(NO_MARKS, [], 0, SummaryOf(o.q));
    }
  }

  lemma UpgradesAtEnd(q: Parser, ch: char)
    ensures LeavesAtEnd(q.state, FreeStep(q, ch))
  {
    hide Dispatch;
    OnlyEndUpgrades(Count(q), ch);
  }

  /** A run that stops: so for every message that was finished before. */
  lemma StopDecomposed(q: Parser, x: Inbox, s: string)
    requires Inv(q) && AllDecomposed(q.state, x) && Feed(q, s).Stopped?
    ensures DoneDecomposed(Collect(x, Feed(q, s).events))
  {
    hide Feed, FreeFeed, Step, Inv, AllDecomposed, DoneDecomposed, Collect;
    StopIs(q, s);
    var r := Feed(q, s);
    var t := s[..r.at];
    var before := Feed(q, t);
    LimitExact(q, t);
    FeedSafe(q, t);
    RunDecomposed(q, x, t);
    var y := Collect(x, before.events);
    StopEvents(before.q, s[r.at]);
    var last := OneByte(Step(before.q, s[r.at]), s[r.at]).events;
    CollectAppend(x, before.events, last);
    if last == [] {
      CollectNone(y);
      DoneIs(before.q.state, y);
    } else {
      var summary :| last == [HeadersDone(summary), Complete];
      LastDecomposed(before.q.state, y, summary);
    }
  }

  /** So for every sequence of calls, however the bytes are cut up, and however it ends. */
  lemma {:induction false} CallsDecomposed(q: Parser, x: Inbox, pieces: seq<string>)
    requires Inv(q) && AllDecomposed(q.state, x)
    ensures var r := Calls(q, pieces);
            var y := Collect(x, r.events);
            if r.Consumed? then AllDecomposed(r.q.state, y) else DoneDecomposed(y)
    decreases |pieces|
  {
    hide Feed, FreeFeed, Inv, AllDecomposed, DoneDecomposed, Collect;
    if pieces == [] {
      CollectNone(x);
    } else {
      LimitExact(q, pieces[0]);
      FeedSafe(q, pieces[0]);
      RunDecomposed(q, x, pieces[0]);
      var r := Call(q, pieces[0]);
      if r.Consumed? {
        CallsDecomposed(r.q, Collect(x, r.events), pieces[1..]);
        CollectAppend(x, r.events, Calls(r.q, pieces[1..]).events);
      } else {
        StopDecomposed(q, x, pieces[0]);
      }
    }
  }

  lemma StartDecomposed(q: Parser, t: ParserType)
    ensures AllDecomposed(Init(q, t).state, NO_MESSAGES)
  {
    EarlyMessage(Init(q, t).state);
  }
}
