/** Which request lines are accepted: blank lines, a word that is read as a method, a target, a
    version or none.  A run reaches the header lines after exactly these. */
module RequestLines {
  import opened Syntax
  import opened Machine
  import opened Messages
  import opened Marks
  import opened Frames
  import opened Invariant
  import opened Split
  import opened Headers
  import opened HeaderLines
  import opened Chunked
  import opened Versions
  import opened Targets
  import opened FirstLines
  import opened Request
  import Limit
  import Methods
  import R = Response

  // ----- The authority, byte by byte -----

  predicate Letters(s: string) { s != [] && forall i :: 0 <= i < |s| ==> IsLetter(s[i]) }

  /** `a` is what a parser in state `s` has read of an authority; `o` has its pieces. */
  predicate OriginSo(s: State, o: Origin, a: string) {
    match s
    case ReqSpacesBeforeUrl => a == []
    case ReqSchema => Letters(o.scheme) && a == o.scheme
    case ReqSchemaSlash => Letters(o.scheme) && a == o.scheme + ":"
    case ReqSchemaSlashSlash => Letters(o.scheme) && a == o.scheme + ":/"
    case ReqHost => OriginOk(o) && o.port.None? && a == OriginText(o)
    case ReqPort => OriginOk(o) && o.port.Some? && a == OriginText(o)
    case _ => a == [] || (OriginOk(o) && a == OriginText(o))
  }

  lemma SchemeByte(q: Parser, o: Origin, a: string, ch: char) returns (o': Origin)
    requires q.state.ReqSpacesBeforeUrl? || q.state.ReqSchema? || q.state.ReqSchemaSlash? || q.state.ReqSchemaSlashSlash?
    requires OriginSo(q.state, o, a) && UrlByte(q, ch).Next? && InAuthority(UrlByte(q, ch).q.state)
    ensures OriginSo(UrlByte(q, ch).q.state, o', a + [ch])
  {
    match q.state
    case ReqSpacesBeforeUrl =>
      o' := Origin([ch], "", "", None);
      assert a + [ch] == [ch];
    case ReqSchema =>
      if IsLetter(ch) {
        o' := o.(scheme := o.scheme + [ch]);
      } else if ch == ':' {
        o' := o;
      } else {
        o' := Origin(o.scheme, [ch], "", None);
        assert OriginText(o') == o.scheme + [ch] + "" + [];
      }
    case ReqSchemaSlash =>
      o' := o;
      assert o.scheme + ":" + ['/'] == o.scheme + ":/";
    case ReqSchemaSlashSlash =>
      o' := Origin(o.scheme, "://", "", None);
      assert o.scheme + ":/" + ['/'] == o.scheme + "://";
      assert OriginText(o') == o.scheme + "://" + "" + [];
  }

  lemma HostByte(q: Parser, o: Origin, a: string, ch: char) returns (o': Origin)
    requires q.state.ReqHost? || q.state.ReqPort?
    requires OriginSo(q.state, o, a) && UrlByte(q, ch).Next? && InAuthority(UrlByte(q, ch).q.state)
    ensures OriginSo(UrlByte(q, ch).q.state, o', a + [ch])
  {
    if q.state.ReqPort? {
      o' := o.(port := Some(o.port.value + [ch]));
      assert [':'] + o.port.value + [ch] == [':'] + (o.port.value + [ch]);
      assert a + [ch] == o.scheme + o.mark + o.host + ([':'] + o.port.value + [ch]);
    } else if ch == ':' {
      o' := o.(port := Some(""));
      assert a == o.scheme + o.mark + o.host;
      assert [':'] + "" == [':'];
    } else {
      o' := o.(host := o.host + [ch]);
      assert a + [ch] == o.scheme + o.mark + (o.host + [ch]) + [];
    }
  }

  lemma PastOrigin(q: Parser, o: Origin, a: string, ch: char)
    requires InUrl(q.state) && OriginSo(q.state, o, a) && UrlByte(q, ch).Next? && !InAuthority(UrlByte(q, ch).q.state)
    ensures OriginSo(UrlByte(q, ch).q.state, o, a)
    ensures q.state.ReqHost? || q.state.ReqPort? || !InAuthority(q.state)
    ensures InAuthority(q.state) ==> a != []
  {
    hide Letters;
  }

  lemma OriginByte(q: Parser, o: Origin, a: string, ch: char) returns (o': Origin)
    requires InUrl(q.state) && OriginSo(q.state, o, a) && UrlByte(q, ch).Next?
    ensures var s' := UrlByte(q, ch).q.state; OriginSo(s', o', if InAuthority(s') then a + [ch] else a)
  {
    hide OriginSo, UrlByte;
    if !InAuthority(UrlByte(q, ch).q.state) {
      PastOrigin(q, o, a, ch);
      o' := o;
    } else {
      IntoAuthorityFrom(q, ch);
      if q.state.ReqHost? || q.state.ReqPort? { o' := HostByte(q, o, a, ch); } else { o' := SchemeByte(q, o, a, ch); }
    }
  }

  lemma IntoAuthorityFrom(q: Parser, ch: char)
    requires InUrl(q.state) && UrlByte(q, ch).Next? && InAuthority(UrlByte(q, ch).q.state)
    ensures q.state.ReqSpacesBeforeUrl? || InAuthority(q.state)
  {
  }

  // ----- The target, byte by byte -----

  /** A path after an authority begins with a slash. */
  predicate Joined(t: Target) { t.authority != [] && t.path != [] ==> t.path[0] == '/' }

  predicate TargetSo(s: State, o: Origin, t: Target) { ReadTo(s, t) && OriginSo(s, o, t.authority) && Joined(t) }

  lemma JoinedPath(s: State, t: Target, ch: char)
    requires ReadTo(s, t) && Goes(s, ch, ReqPath) && InUrl(s) && Joined(t)
    ensures Joined(Grown(t, ReqPath, ch)) && Grown(t, ReqPath, ch).authority == t.authority
  {
    hide TargetOk, IsLetter, IsAuthorityChar, IsUrlChar;
  }

  lemma JoinedAuthority(s: State, t: Target, ch: char, s': State)
    requires ReadTo(s, t) && Goes(s, ch, s') && InUrl(s) && InAuthority(s')
    ensures Joined(Grown(t, s', ch)) && Grown(t, s', ch).authority == t.authority + [ch]
  {
    hide TargetOk, IsLetter, IsAuthorityChar, IsUrlChar, ReadTo, Goes;
    AuthorityFrom(s, ch, s');
    BeforePath(s, t);
  }

  lemma JoinedMore(s: State, t: Target, ch: char, s': State)
    requires ReadTo(s, t) && Goes(s, ch, s') && InUrl(s) && Joined(t)
    ensures Joined(Grown(t, s', ch))
    ensures Grown(t, s', ch).authority == if InAuthority(s') then t.authority + [ch] else t.authority
  {
    hide ReadTo, Goes, InUrl;
    if InAuthority(s') { JoinedAuthority(s, t, ch, s'); }
    else if s'.ReqPath? { JoinedPath(s, t, ch); }
  }

  lemma TargetByteSo(q: Parser, o: Origin, t: Target, ch: char) returns (o': Origin)
    requires InUrl(q.state) && TargetSo(q.state, o, t) && UrlByte(q, ch).Next?
    ensures var s' := UrlByte(q, ch).q.state;
            TargetSo(s', o', Grown(t, s', ch)) && (InTarget(s') ==> Text(Grown(t, s', ch)) == Text(t) + [ch])
  {
    hide UrlByte, ReadTo, OriginSo, Grown, Goes, Joined, Text, InTarget, InAuthority, UrlNext;
    var s' := UrlByte(q, ch).q.state;
    o' := OriginByte(q, o, t.authority, ch);
    UrlFrame(q, ch);
    AnyGoes(q, ch);
    JoinedMore(q.state, t, ch, s');
    Grow(q.state, t, ch, s');
  }

  lemma AnyGoes(q: Parser, ch: char)
    requires InUrl(q.state) && UrlByte(q, ch).Next?
    ensures Goes(q.state, ch, UrlByte(q, ch).q.state)
  {
    hide UrlByte, Goes;
    if q.state.ReqSpacesBeforeUrl? || InAuthority(q.state) { AuthorityGoes(q, ch); }
    else if q.state.ReqPath? || q.state.ReqQueryStringStart? { PathGoes(q, ch); }
    else { QueryGoes(q, ch); }
  }

  /** The byte after a target, and where it leads. */
  predicate EndsTarget(ch: char, s: State) {
    (ch == ' ' && s.ReqHttpStart?) || (ch == CR && s.ReqLineAlmostDone?) || (ch == LF && s.HeaderFieldStart?)
  }

  lemma EndByte(q: Parser, ch: char)
    requires InUrl(q.state) && UrlByte(q, ch).Next?
    ensures var s' := UrlByte(q, ch).q.state;
            && (InUrl(s') ==> s'.ReqSpacesBeforeUrl? ==> q.state.ReqSpacesBeforeUrl? && ch == ' ')
            && (!InUrl(s') ==> InTarget(q.state) && EndsTarget(ch, s') && (ch != ' ' ==> !InAuthority(q.state)))
  {
  }

  lemma WholeTarget(s: State, o: Origin, t: Target, s': State)
    requires InTarget(s) && TargetSo(s, o, t) && !InUrl(s') && OriginSo(s', o, t.authority)
    ensures TargetForm(t) && (!InAuthority(s) ==> t.path != [])
  {
    hide OriginOk, OriginText;
    ReadOk(s, t);
  }

  lemma {:induction false} ScanTarget(q: Parser, o: Origin, t: Target, s: string)
    returns (t': Target, stop: char, rest: string, q1: Parser)
    requires Gets(q, s) && InUrl(q.state) && TargetSo(q.state, o, t)
    requires q.state.ReqSpacesBeforeUrl? ==> s == [] || s[0] != ' '
    ensures Text(t) + s == Text(t') + ([stop] + rest) && TargetForm(t')
    ensures Gets(q1, rest) && EndsTarget(stop, q1.state) && (stop != ' ' ==> t'.path != [])
    decreases |s|
  {
    hide Gets, FreeStep, UrlByte, TargetSo, TargetForm, Text, InUrl, InTarget, InAuthority, OriginSo, Grown, EndsTarget;
    UrlIsFirst(q.state);
    GetsOn(q, s);
    var ch := s[0];
    UrlDispatch(q, ch);
    SameState(q);
    var c, o1 := Count(q), FreeStep(q, ch).q;
    EndByte(c, ch);
    var o' := TargetByteSo(c, o, t, ch);
    assert s == [ch] + s[1..];
    if InUrl(o1.state) {
      InTargetOr(o1.state);
      t', stop, rest, q1 := ScanTarget(o1, o', Grown(t, o1.state, ch), s[1..]);
      assert Text(t) + [ch] + s[1..] == Text(t) + s;
    } else {
      PastOriginSo(c, o, t, ch);
      WholeTarget(q.state, o, t, o1.state);
      t', stop, rest, q1 := t, ch, s[1..], o1;
    }
  }

  lemma PastOriginSo(q: Parser, o: Origin, t: Target, ch: char)
    requires InUrl(q.state) && TargetSo(q.state, o, t) && UrlByte(q, ch).Next? && !InUrl(UrlByte(q, ch).q.state)
    ensures OriginSo(UrlByte(q, ch).q.state, o, t.authority)
  {
    hide UrlByte, OriginSo, ReadTo;
    PastOrigin(q, o, t.authority, ch);
  }

  lemma UrlIsFirst(s: State)
    requires InUrl(s)
    ensures !s.HeaderFieldStart?
  {
  }

  lemma InTargetOr(s: State)
    requires InUrl(s) && !s.ReqSpacesBeforeUrl?
    ensures InTarget(s)
  {
  }

  lemma SameState(q: Parser)
    ensures Count(q).state == q.state
  {
  }

  // ----- The line -----

  /** A request line as a client may write it: `word` is what is read as the method, `spaces`
      come before the target besides the one after the word, `gap` before the version. */
  datatype Written = Written(blank: string, word: string, spaces: nat, gap: nat, line: RequestLine)

  ghost predicate WrittenOk(w: Written) {
    AllBlank(w.blank) && Methods.Word(w.word, w.line.meth) && RequestOk(w.line)
  }

  function VersionText(w: Written): string {
    match w.line.version
    case Http(major, minor) => [' '] + (Spaces(w.gap) + PrintVersion(major, minor, w.line.bare))
    case Http09 => LineEnd(w.line.bare)
  }

  function LineText(w: Written): string {
    w.blank + ((w.word + [' ']) + (Spaces(w.spaces) + (Text(w.line.target) + VersionText(w))))
  }

  // ----- Reading it -----

  lemma {:induction false} ScanBlank(q: Parser, s: string) returns (blank: string, rest: string, q1: Parser)
    requires Gets(q, s) && q.state.StartReq?
    ensures s == blank + rest && AllBlank(blank) && Gets(q1, rest) && q1.state.StartReq?
    ensures rest != [] && rest[0] != CR && rest[0] != LF
    decreases |s|
  {
    hide Gets, FreeStep;
    GetsOn(q, s);
    if s[0] == CR || s[0] == LF {
      BlankByte(q, s[0]);
      var more;
      more, rest, q1 := ScanBlank(FreeStep(q, s[0]).q, s[1..]);
      blank := [s[0]] + more;
    } else {
      blank, rest, q1 := [], s, q;
    }
  }

  /** The rest of the word, and the space after it. */
  lemma {:induction false} ScanWord(q: Parser, w: string, s: string) returns (v: string, rest: string, q1: Parser)
    requires Gets(q, s) && Methods.Tracks(q, w) && w != []
    ensures s == v + [' '] + rest && Methods.Word(w + v, Methods.Family(w + v))
    ensures Gets(q1, rest) && q1.state.ReqSpacesBeforeUrl?
    decreases |s|
  {
    hide Gets, FreeStep, Methods.Readable, Methods.Family, Methods.Word, MethodString;
    GetsOn(q, s);
    Methods.WordByte(q, w, s[0]);
    var o := FreeStep(q, s[0]);
    if Methods.EndsWord(w, s[0]) {
      v, rest, q1 := [], s[1..], o.q;
      assert w + v == w;
      Methods.WordIs(w, Methods.Family(w));
    } else {
      var more;
      more, rest, q1 := ScanWord(o.q, w + [s[0]], s[1..]);
      v := [s[0]] + more;
      assert w + [s[0]] + more == w + v;
    }
  }

  lemma ScanMethod(q: Parser, s: string) returns (w: string, rest: string, q1: Parser)
    requires Gets(q, s) && q.state.StartReq? && (s == [] || (s[0] != CR && s[0] != LF))
    ensures w != [] && s == w + [' '] + rest && Methods.Word(w, Methods.Family(w))
    ensures Gets(q1, rest) && q1.state.ReqSpacesBeforeUrl?
  {
    hide Gets, FreeStep, Methods.Readable, Methods.Family, Methods.Word;
    GetsOn(q, s);
    Methods.FirstLetterByte(q, s[0]);
    StartGoes(q, s[0]);
    var v;
    v, rest, q1 := ScanWord(FreeStep(q, s[0]).q, [s[0]], s[1..]);
    w := [s[0]] + v;
  }

  lemma StartGoes(q: Parser, ch: char)
    requires q.state.StartReq? && ch != CR && ch != LF && FreeStep(q, ch).Next?
    ensures FreeStep(q, ch).q.state.ReqMethod?
  {
    hide AssignMethod;
    Methods.AssignIs(BeginMessage(Count(q)), ch);
  }

  lemma {:induction false} ScanSpaces(q: Parser, s: string) returns (n: nat, rest: string, q1: Parser)
    requires Gets(q, s) && q.state.ReqSpacesBeforeUrl?
    ensures s == Spaces(n) + rest && Gets(q1, rest) && q1.state.ReqSpacesBeforeUrl?
    ensures rest != [] && rest[0] != ' '
    decreases |s|
  {
    hide Gets, FreeStep;
    GetsOn(q, s);
    if s[0] == ' ' {
      SpaceStays(q);
      n, rest, q1 := ScanSpaces(FreeStep(q, ' ').q, s[1..]);
      OneMoreSpace(n, s, rest);
      n := n + 1;
    } else {
      n, rest, q1 := 0, s, q;
    }
  }

  lemma SpaceStays(q: Parser)
    requires q.state.ReqSpacesBeforeUrl?
    ensures FreeStep(q, ' ') == Next(q.(nread := q.nread + 1), [])
  {
  }

  lemma OneMoreSpace(n: nat, s: string, rest: string)
    requires s != [] && s[0] == ' ' && s[1..] == Spaces(n) + rest
    ensures s == Spaces(n + 1) + rest
  {
    assert Spaces(n + 1) == [' '] + Spaces(n);
    assert s == [' '] + s[1..];
  }

  lemma GapByte(q: Parser, ch: char)
    requires q.state.ReqHttpStart?
    ensures var o := FirstLineByte(q, ch);
            o.Next? ==> (ch == ' ' && o.q.state.ReqHttpStart?) || (ch == 'H' && o.q.state.ReqHttpH?)
  {
  }

  lemma {:induction false} ScanGap(q: Parser, s: string) returns (n: nat, rest: string, q1: Parser)
    requires Gets(q, s) && q.state.ReqHttpStart?
    ensures s == Spaces(n) + ("HTTP/" + rest) && Gets(q1, rest) && q1.state.ReqFirstHttpMajor?
    decreases |s|
  {
    hide Gets, FreeStep, FirstLineByte;
    GapInLine();
    LineGetsOn(q, s);
    GapByte(q.(nread := q.nread + 1), s[0]);
    var q0 := FreeStep(q, s[0]).q;
    if s[0] == ' ' {
      n, rest, q1 := ScanGap(q0, s[1..]);
      OneMoreSpace(n, s, "HTTP/" + rest);
      n := n + 1;
    } else {
      rest, q1 := ScanHttp(q0, s[1..]);
      n := 0;
      assert ['H'] + ("TTP/" + rest) == "HTTP/" + rest;
    }
  }

  lemma GapInLine()
    ensures InFirstLine(ReqHttpStart)
  {
  }

  /** From the byte after the target to the end of the line. */
  lemma ScanVersion(q: Parser, s: string)
    returns (gap: nat, major: string, minor: string, bare: bool, rest: string)
    requires Gets(q, s) && q.state.ReqHttpStart?
    ensures s == Spaces(gap) + PrintVersion(major, minor, bare) + rest
    ensures NumberOk(RequestMajor, major) && NumberOk(RequestMinor, minor)
  {
    hide Gets, NumberOk, Spaces;
    var t, q1, u, q2, v, q3, stop, q4;
    gap, t, q1 := ScanGap(q, s);
    major, stop, u, q2 := ScanNumberStop(q1, RequestMajor, t);
    minor, stop, v, q3 := ScanNumberStop(q2, RequestMinor, u);
    rest, q4 := ScanEnd(q3, stop, v);
    bare := stop == LF;
    JoinVersion(gap, major, minor, bare, stop, v, rest);
  }

  lemma JoinVersion(gap: nat, major: string, minor: string, bare: bool, stop: char, v: string, rest: string)
    requires [stop] + v == LineEnd(bare) + rest
    ensures Spaces(gap) + ("HTTP/" + (major + ['.'] + (minor + [stop] + v))) ==
            Spaces(gap) + PrintVersion(major, minor, bare) + rest
  {
    hide Spaces, LineEnd;
    assert minor + [stop] + v == minor + LineEnd(bare) + rest by {
      assert minor + [stop] + v == minor + ([stop] + v);
      assert minor + (LineEnd(bare) + rest) == minor + LineEnd(bare) + rest;
    }
  }

  /** A buffer whose run ends where the header lines begin starts with a request line. */
  lemma ScanLine(q: Parser, s: string) returns (w: Written)
    requires Gets(q, s) && q.state.StartReq?
    ensures WrittenOk(w) && LineText(w) <= s
  {
    hide Gets, Methods.Word, Methods.Family, NumberOk, TargetForm, Text, Spaces, AllBlank, OriginSo, ReadTo, PrintVersion;
    var blank, s1, q1 := ScanBlank(q, s);
    var word, s2, q2 := ScanMethod(q1, s1);
    var spaces, s3, q3 := ScanSpaces(q2, s2);
    StartsTarget(q3.state);
    var target, stop, s4, q4 := ScanTarget(q3, Origin("", "", "", None), NO_TARGET, s3);
    var meth := Methods.Family(word);
    NoTargetText();
    var rest;
    if stop == ' ' {
      var gap, major, minor, bare;
      gap, major, minor, bare, rest := ScanVersion(q4, s4);
      w := Written(blank, word, spaces, gap, RequestLine(meth, target, Http(major, minor), bare));
      assert [' '] + s4 == VersionText(w) + rest;
    } else {
      var q5;
      rest, q5 := ScanEnd(q4, stop, s4);
      w := Written(blank, word, spaces, 0, RequestLine(meth, target, Http09, stop == LF));
    }
    JoinLine(w, [stop] + s4, rest, s3, s2, s1, s);
  }

  lemma StartsTarget(s: State)
    requires s.ReqSpacesBeforeUrl?
    ensures InUrl(s) && TargetSo(s, Origin("", "", "", None), NO_TARGET)
  {
  }

  lemma JoinLine(w: Written, t: string, rest: string, s3: string, s2: string, s1: string, s: string)
    requires t == VersionText(w) + rest && s3 == Text(w.line.target) + t
    requires s2 == Spaces(w.spaces) + s3 && s1 == w.word + [' '] + s2 && s == w.blank + s1
    ensures s == LineText(w) + rest
  {
    hide Spaces, Text, VersionText;
    assert s3 == (Text(w.line.target) + VersionText(w)) + rest;
    assert s2 == (Spaces(w.spaces) + (Text(w.line.target) + VersionText(w))) + rest;
  }

  // ----- Writing it -----

  lemma {:induction false} GapRun(q: Parser, n: nat)
    requires q.state.ReqHttpStart?
    ensures Silent(q, Spaces(n), q.(nread := q.nread + n))
    decreases n
  {
    hide Silent;
    if n == 0 {
      SilentNothing(q);
    } else {
      GapRun(q, n - 1);
      assert Spaces(n) == Spaces(n - 1) + [' '];
      LineSilent(q, Spaces(n - 1), q.(nread := q.nread + n - 1), ' ', q.(nread := q.nread + n));
    }
  }

  lemma VersionTextRun(q: Parser, x: Inbox, w: Written)
    requires RequestOk(w.line) && InTarget(q.state)
    requires q.state.ReqHost? || q.state.ReqPort? || !InAuthority(q.state)
    requires w.line.target.path != [] ==> !InAuthority(q.state)
    ensures AtHeaders(FreeFeed(q, VersionText(w)), x,
                      q.(state := HeaderFieldStart, httpMajor := MajorOf(w.line), httpMinor := MinorOf(w.line),
                         nread := q.nread + |VersionText(w)|), x.cur)
  {
    hide FreeFeed, FreeStep, Silent, TargetForm, Collect, Decimal, PrintVersion, ByteEvents, InTarget, InAuthority, UrlByte,
         Spaces;
    var c := q.(nread := q.nread + 1);
    match w.line.version
    case Http(major, minor) =>
      SpaceEnds(c);
      var q1, text := c.(state := ReqHttpStart), PrintVersion(major, minor, w.line.bare);
      TargetEnds(q, x, ' ', q1);
      GapRun(q1, w.gap);
      SpacesLength(w.gap);
      var q2 := q1.(nread := q1.nread + w.gap);
      VersionRun(q2, major, minor, w.line.bare);
      var q3 := q2.(state := HeaderFieldStart, httpMajor := Decimal(major), httpMinor := Decimal(minor),
                    nread := q2.nread + |text|);
      SilentTwice(q1, Spaces(w.gap), q2, text, q3);
      ByteThenSilent(q, x, ' ', Spaces(w.gap) + text, q3);
    case Http09 =>
      EndRun(q, x, w.line);
  }

  lemma SpacesLength(n: nat)
    ensures |Spaces(n)| == n
  {
  }

  /** The parser after a request line. */
  function AfterWritten(q: Parser, w: Written): Parser
    requires RequestOk(w.line)
  {
    BeginMessage(q).(state := HeaderFieldStart, meth := w.line.meth, index := |w.word| + 1,
                     httpMajor := MajorOf(w.line), httpMinor := MinorOf(w.line), nread := q.nread + |LineText(w)|)
  }

  lemma {:induction false} SpacesThere(q: Parser, n: nat)
    requires q.state.ReqSpacesBeforeUrl?
    ensures Silent(q, Spaces(n), q.(nread := q.nread + n))
    decreases n
  {
    hide Silent, FreeStep;
    if n == 0 {
      SilentNothing(q);
    } else {
      SpacesThere(q, n - 1);
      assert Spaces(n) == Spaces(n - 1) + [' '];
      var q1 := q.(nread := q.nread + n - 1);
      SpaceStays(q1);
      Methods.MethodQuiet();
      SilentByte(q, Spaces(n - 1), q1, ' ', q.(nread := q.nread + n));
    }
  }

  lemma TargetAndVersion(q: Parser, x: Inbox, w: Written)
    requires q.state.ReqSpacesBeforeUrl? && RequestOk(w.line) && Reports(x.cur, NO_TARGET)
    ensures var text := Text(w.line.target) + VersionText(w);
            AtHeaders(FreeFeed(q, text), x,
                      q.(state := HeaderFieldStart, httpMajor := MajorOf(w.line), httpMinor := MinorOf(w.line),
                         nread := q.nread + |text|),
                      WithTarget(x.cur, w.line.target))
  {
    hide FreeFeed, FreeStep, TargetForm, Text, Collect, VersionText, InTarget, InAuthority, MajorOf, MinorOf;
    var t := w.line.target;
    var s := TargetRun(q, x, t);
    var q1, y := FreeFeed(q, Text(t)).q, Inbox(x.done, WithTarget(x.cur, t));
    VersionTextRun(q1, y, w);
    FreeFeedAppend(q, Text(t), VersionText(w));
    CollectAppend(x, FreeFeed(q, Text(t)).events, FreeFeed(q1, VersionText(w)).events);
  }

  /** Every such line is read: its message begins, and its target is told. */
  lemma LineRun(q: Parser, x: Inbox, w: Written)
    requires q.state.StartReq? && WrittenOk(w) && Reports(x.cur, NO_TARGET)
    ensures AtHeaders(FreeFeed(q, LineText(w)), x, AfterWritten(q, w), WithTarget(R.Began(x.cur), w.line.target))
  {
    hide FreeFeed, TargetForm, Text, Collect, MajorOf, MinorOf, VersionText, Methods.Word, AllBlank, Spaces, Silent;
    var rest := Text(w.line.target) + VersionText(w);
    BlankRun(q, w.blank);
    var q1 := q.(nread := q.nread + |w.blank|);
    Methods.MethodText(q1, w.word, w.line.meth);
    var q2 := FreeFeed(q1, w.word + [' ']).q;
    SpacesThere(q2, w.spaces);
    SpacesLength(w.spaces);
    var q3 := q2.(nread := q2.nread + w.spaces);
    IsSilent(q2, Spaces(w.spaces), q3);
    Collect1(x, Begin);
    var y := Inbox(x.done, R.Began(x.cur));
    TargetAndVersion(q3, y, w);
    FreeFeedAppend(q2, Spaces(w.spaces), rest);
    FreeFeedAppend(q1, w.word + [' '], Spaces(w.spaces) + rest);
    FreeFeedAppend(q, w.blank, w.word + [' '] + (Spaces(w.spaces) + rest));
    var es := FreeFeed(q3, rest).events;
    assert [] + ([Begin] + ([] + es)) == [Begin] + es;
    CollectAppend(x, [Begin], es);
  }

  // ----- Exactly these -----

  lemma LineConsumed(q: Parser, w: Written)
    requires Inv(q) && q.state.StartReq? && WrittenOk(w) && q.nread <= MAX_HEADER_SIZE
    requires Feed(q, LineText(w)).Consumed?
    ensures q.nread + |LineText(w)| <= MAX_HEADER_SIZE
  {
    hide Feed, FreeFeed, Inv, WrittenOk, LineText, Collect;
    LineReads(q, w);
    if q.nread + |LineText(w)| > MAX_HEADER_SIZE { Limit.TooMany(q, LineText(w)); }
  }

  lemma LineReads(q: Parser, w: Written)
    requires q.state.StartReq? && WrittenOk(w)
    ensures var r := FreeFeed(q, LineText(w)); r.Consumed? && r.q == AfterWritten(q, w)
    ensures AfterWritten(q, w).state.HeaderFieldStart? && AfterWritten(q, w).nread == q.nread + |LineText(w)|
  {
    hide FreeFeed, WrittenOk, LineText, Collect;
    NoTargetText();
    LineRun(q, NO_MESSAGES, w);
  }

  lemma ReadsLine(q: Parser, s: string) returns (w: Written)
    requires Inv(q) && q.state.StartReq? && q.nread <= MAX_HEADER_SIZE && AtLines(Feed(q, s))
    ensures WrittenOk(w) && LineText(w) <= s && q.nread + |LineText(w)| <= MAX_HEADER_SIZE
  {
    hide Feed, FreeFeed, Inv, WrittenOk, LineText;
    LimitExact(q, s);
    w := ScanLine(q, s);
    var n := |LineText(w)|;
    assert s == LineText(w) + s[n..];
    FeedAppend(q, LineText(w), s[n..]);
    LineConsumed(q, w);
  }

  /** The request lines that are accepted, exactly: a run from the start of a request gets to
      the header lines when the buffer begins with blank lines, a word that is read as a method,
      a space and more, a target, and either a version after a space and more, or none; and when
      they are within the header limit. */
  lemma LinesAccepted(q: Parser, s: string)
    requires Inv(q) && q.state.StartReq? && q.nread <= 81920
    ensures Reaches(q, s) <==> exists w :: WrittenOk(w) && LineText(w) <= s && q.nread + |LineText(w)| <= 81920
  {
    hide Feed, FreeFeed, Inv, WrittenOk, LineText, AtLines;
    if Reaches(q, s) {
      var n :| 0 <= n <= |s| && AtLines(Feed(q, s[..n]));
      var w := ReadsLine(q, s[..n]);
    }
    if w :| WrittenOk(w) && LineText(w) <= s && q.nread + |LineText(w)| <= 81920 {
      LineReads(q, w);
      ShortFeed(q, LineText(w));
      assert s[..|LineText(w)|] == LineText(w);
      AreLines(Feed(q, LineText(w)));
    }
  }
}
