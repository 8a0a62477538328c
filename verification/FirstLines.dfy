/** Reading a first line: what a run that gets past it must have read. */
module FirstLines {
  import opened Syntax
  import opened Machine
  import opened Messages
  import opened Headers
  import opened HeaderLines
  import opened Versions

  /** The run over `s` ends where the header lines begin. */
  predicate Gets(q: Parser, s: string) {
    var r := FreeFeed(q, s);
    r.Consumed? && r.q.state.HeaderFieldStart?
  }

  lemma GetsOn(q: Parser, s: string)
    requires Gets(q, s) && !q.state.HeaderFieldStart?
    ensures s != [] && FreeStep(q, s[0]).Next? && Gets(FreeStep(q, s[0]).q, s[1..])
  {
    hide FreeStep;
  }

  /** The same for the states whose bytes the application is not told of. */
  lemma LineGetsOn(q: Parser, s: string)
    requires Gets(q, s) && InFirstLine(q.state)
    ensures s != [] && s == [s[0]] + s[1..]
    ensures var o := FirstLineByte(q.(nread := q.nread + 1), s[0]);
            o.Next? && Gets(o.q, s[1..]) && o == FreeStep(q, s[0])
  {
    hide FreeStep, FirstLineByte, Gets;
    NotYet(q.state);
    GetsOn(q, s);
    FirstLineStep(q, s[0]);
  }

  lemma NotYet(s: State)
    requires InFirstLine(s)
    ensures !s.HeaderFieldStart?
  {
  }

  // ----- Fixed bytes -----

  /** The one byte a state wants, and where it leads. */
  predicate Wants(s: State, ch: char, s': State) {
    match s
    case ReqHttpH => ch == 'T' && s'.ReqHttpHT?
    case ReqHttpHT => ch == 'T' && s'.ReqHttpHTT?
    case ReqHttpHTT => ch == 'P' && s'.ReqHttpHTTP?
    case ReqHttpHTTP => ch == '/' && s'.ReqFirstHttpMajor?
    case ReqLineAlmostDone => ch == LF && s'.HeaderFieldStart?
    case ResH => ch == 'T' && s'.ResHT?
    case ResHT => ch == 'T' && s'.ResHTT?
    case ResHTT => ch == 'P' && s'.ResHTTP?
    case ResHTTP => ch == '/' && s'.ResFirstHttpMajor?
    case ResLineAlmostDone => ch == LF && s'.HeaderFieldStart?
    case _ => false
  }

  predicate Wanting(s: State) {
    || s.ReqHttpH? || s.ReqHttpHT? || s.ReqHttpHTT? || s.ReqHttpHTTP? || s.ReqLineAlmostDone?
    || s.ResH? || s.ResHT? || s.ResHTT? || s.ResHTTP? || s.ResLineAlmostDone?
  }

  lemma WantedByte(q: Parser, ch: char)
    requires InFirstLine(q.state) && Wanting(q.state)
    ensures var o := FirstLineByte(q, ch); o.Next? ==> Wants(q.state, ch, o.q.state)
  {
  }

  lemma Wanted(q: Parser, s: string) returns (q1: Parser)
    requires Gets(q, s) && Wanting(q.state)
    ensures s != [] && s == [s[0]] + s[1..] && Wants(q.state, s[0], q1.state) && Gets(q1, s[1..])
  {
    hide FreeStep, FirstLineByte, Gets, Wants;
    WantingInLine(q.state);
    LineGetsOn(q, s);
    WantedByte(q.(nread := q.nread + 1), s[0]);
    q1 := FreeStep(q, s[0]).q;
  }

  lemma WantingInLine(s: State)
    requires Wanting(s)
    ensures InFirstLine(s)
  {
  }

  /** The rest of `HTTP/`, after its first letter. */
  lemma ScanHttp(q: Parser, s: string) returns (rest: string, q1: Parser)
    requires Gets(q, s) && (q.state.ReqHttpH? || q.state.ResH?)
    ensures s == "TTP/" + rest && Gets(q1, rest)
    ensures q1.state == if q.state.ReqHttpH? then ReqFirstHttpMajor else ResFirstHttpMajor
  {
    hide Gets;
    var a := Wanted(q, s);
    var b := Wanted(a, s[1..]);
    var c := Wanted(b, s[1..][1..]);
    q1 := Wanted(c, s[1..][1..][1..]);
    rest := s[1..][1..][1..][1..];
    assert s == ['T'] + (['T'] + (['P'] + (['/'] + rest)));
    assert ['T'] + (['T'] + (['P'] + (['/'] + rest))) == "TTP/" + rest;
  }

  // ----- Numbers -----

  lemma FirstDigitTaken(q: Parser, k: Number, ch: char)
    requires q.state == FirstState(k) && (k.Status? ==> ch != ' ')
    ensures var o := FirstLineByte(q, ch);
            o.Next? ==> IsDigit(ch) && (IsMajor(k) ==> ch != '0')
                        && o.q.state == DigitState(k) && NumberOf(o.q, k) == DigitValue(ch)
  {
  }

  lemma NextDigitTaken(q: Parser, k: Number, ch: char)
    requires q.state == DigitState(k) && IsDigit(ch)
    ensures var o := FirstLineByte(q, ch);
            o.Next? ==> NumberOf(q, k) * 10 + DigitValue(ch) <= 999
                        && o.q.state == DigitState(k) && NumberOf(o.q, k) == NumberOf(q, k) * 10 + DigitValue(ch)
  {
  }

  /** More digits of a number, up to the first byte that is none. */
  lemma {:induction false} ScanDigits(q: Parser, k: Number, digits: string, s: string)
    returns (more: string, rest: string, q1: Parser)
    requires Gets(q, s) && q.state == DigitState(k) && NumberOk(k, digits) && NumberOf(q, k) == Decimal(digits)
    ensures s == more + rest && NumberOk(k, digits + more)
    ensures rest != [] && !IsDigit(rest[0]) && Gets(q1, rest) && q1.state == DigitState(k)
    decreases |s|
  {
    hide FreeStep, FirstLineByte, Gets, Decimal, DigitState, NumberOf;
    NumberStates(k);
    LineGetsOn(q, s);
    if IsDigit(s[0]) {
      NextDigitTaken(q.(nread := q.nread + 1), k, s[0]);
      SameNumber(q, k);
      OneMoreDigit(digits, s[0]);
      more, rest, q1 := ScanDigits(FreeStep(q, s[0]).q, k, digits + [s[0]], s[1..]);
      assert digits + [s[0]] + more == digits + ([s[0]] + more);
      more := [s[0]] + more;
    } else {
      more, rest, q1 := [], s, q;
      assert digits + [] == digits;
    }
  }

  lemma NumberStates(k: Number)
    ensures InFirstLine(FirstState(k)) && InFirstLine(DigitState(k))
  {
  }

  lemma SameNumber(q: Parser, k: Number)
    ensures NumberOf(q.(nread := q.nread + 1), k) == NumberOf(q, k)
  {
  }

  lemma SmallNumber(k: Number, ch: char)
    requires IsDigit(ch) && (IsMajor(k) ==> ch != '0')
    ensures NumberOk(k, [ch]) && Decimal([ch]) == DigitValue(ch)
  {
    assert [ch][..0] == [] && Decimal([]) == 0;
  }

  lemma ScanNumber(q: Parser, k: Number, s: string) returns (digits: string, rest: string, q1: Parser)
    requires Gets(q, s) && q.state == FirstState(k) && (k.Status? ==> s == [] || s[0] != ' ')
    ensures s == digits + rest && NumberOk(k, digits)
    ensures rest != [] && !IsDigit(rest[0]) && Gets(q1, rest) && q1.state == DigitState(k)
  {
    hide FreeStep, FirstLineByte, Gets, Decimal, DigitState, FirstState, NumberOf, NumberOk;
    NumberStates(k);
    LineGetsOn(q, s);
    FirstDigitTaken(q.(nread := q.nread + 1), k, s[0]);
    SmallNumber(k, s[0]);
    var more;
    more, rest, q1 := ScanDigits(FreeStep(q, s[0]).q, k, [s[0]], s[1..]);
    digits := [s[0]] + more;
  }

  /** The byte after a number, and where it leads. */
  predicate Leads(k: Number, ch: char, s': State) {
    match k
    case Major => ch == '.' && s'.ResFirstHttpMinor?
    case Minor => ch == ' ' && s'.ResFirstStatusCode?
    case Status =>
      (ch == ' ' && s'.ResStatus?) || (ch == CR && s'.ResLineAlmostDone?) || (ch == LF && s'.HeaderFieldStart?)
    case RequestMajor => ch == '.' && s'.ReqFirstHttpMinor?
    case RequestMinor => (ch == CR && s'.ReqLineAlmostDone?) || (ch == LF && s'.HeaderFieldStart?)
  }

  lemma NumberLeads(q: Parser, k: Number, ch: char)
    requires q.state == DigitState(k) && !IsDigit(ch)
    ensures var o := FirstLineByte(q, ch); o.Next? ==> Leads(k, ch, o.q.state)
  {
  }

  /** A number and the byte after it. */
  lemma ScanNumberStop(q: Parser, k: Number, s: string) returns (digits: string, stop: char, rest: string, q1: Parser)
    requires Gets(q, s) && q.state == FirstState(k) && (k.Status? ==> s == [] || s[0] != ' ')
    ensures s == digits + [stop] + rest && NumberOk(k, digits) && Leads(k, stop, q1.state) && Gets(q1, rest)
  {
    hide FreeStep, FirstLineByte, Gets, DigitState, FirstState, NumberOk, Leads, IsDigit;
    var t, q0;
    digits, t, q0 := ScanNumber(q, k, s);
    NumberStates(k);
    LineGetsOn(q0, t);
    NumberLeads(q0.(nread := q0.nread + 1), k, t[0]);
    stop, rest, q1 := t[0], t[1..], FreeStep(q0, t[0]).q;
    assert digits + ([stop] + rest) == digits + [stop] + rest;
  }

  // ----- Line ends -----

  /** After the byte that ends a line: nothing, or the LF that must follow a CR. */
  lemma ScanEnd(q: Parser, stop: char, s: string) returns (rest: string, q1: Parser)
    requires Gets(q, s)
    requires (stop == LF && q.state.HeaderFieldStart?)
             || (stop == CR && (q.state.ReqLineAlmostDone? || q.state.ResLineAlmostDone?))
    ensures [stop] + s == LineEnd(stop == LF) + rest && q1.state.HeaderFieldStart? && Gets(q1, rest)
  {
    hide Gets;
    if stop == LF {
      rest, q1 := s, q;
    } else {
      q1 := Wanted(q, s);
      rest := s[1..];
      assert [CR] + ([LF] + rest) == CRLF + rest;
    }
  }

  // ----- Past the first line -----

  /** Some of the bytes take the parser to the header lines. */
  predicate Reaches(q: Parser, s: string) {
    exists n :: 0 <= n <= |s| && AtLines(Feed(q, s[..n]))
  }

  predicate AtLines(r: Run) { r.Consumed? && r.q.state.HeaderFieldStart? }

  lemma AreLines(r: Run)
    requires r.Consumed? && r.q.state.HeaderFieldStart?
    ensures AtLines(r)
  {
  }
}
