/** Version and status numbers: any numeral up to 999 in the first line of a message is
    stored as its value, byte by byte and without a word to the application. */
module Versions {
  import opened Syntax
  import opened Machine
  import opened Messages
  import opened Headers
  import opened Chunked

  // ----- One silent byte of a first line -----

  predicate InFirstLine(s: State) { InStatusLine(s) || InRequestVersion(s) }

  function FirstLineByte(q: Parser, ch: char): Outcome
    requires InFirstLine(q.state)
  {
    if InStatusLine(q.state) then StatusLineByte(q, ch) else RequestVersionByte(q, ch)
  }

  lemma FirstLineStep(q: Parser, ch: char)
    requires InFirstLine(q.state)
    ensures FreeStep(q, ch) == FirstLineByte(q.(nread := q.nread + 1), ch)
  {
    hide StatusLineByte, RequestVersionByte;
  }

  lemma LineSilent(q: Parser, s: string, q1: Parser, ch: char, q2: Parser)
    requires Silent(q, s, q1) && InFirstLine(q1.state)
    requires FirstLineByte(q1.(nread := q1.nread + 1), ch) == Next(q2, []) && Open(q2.state) == []
    ensures Silent(q, s + [ch], q2)
  {
    hide FirstLineByte, Silent, Open, FreeStep;
    FirstLineStep(q1, ch);
    SilentByte(q, s, q1, ch, q2);
  }

  // ----- Numbers -----

  /** The numbers of a first line, each in its own pair of states. */
  datatype Number = Major | Minor | Status | RequestMajor | RequestMinor

  function FirstState(k: Number): State {
    match k
    case Major => ResFirstHttpMajor
    case Minor => ResFirstHttpMinor
    case Status => ResFirstStatusCode
    case RequestMajor => ReqFirstHttpMajor
    case RequestMinor => ReqFirstHttpMinor
  }

  function DigitState(k: Number): State {
    match k
    case Major => ResHttpMajor
    case Minor => ResHttpMinor
    case Status => ResStatusCode
    case RequestMajor => ReqHttpMajor
    case RequestMinor => ReqHttpMinor
  }

  predicate IsMajor(k: Number) { k.Major? || k.RequestMajor? }

  function WithNumber(q: Parser, k: Number, n: nat): Parser {
    match k
    case Major | RequestMajor => q.(httpMajor := n)
    case Minor | RequestMinor => q.(httpMinor := n)
    case Status => q.(statusCode := n)
  }

  function NumberOf(q: Parser, k: Number): nat {
    match k
    case Major | RequestMajor => q.httpMajor
    case Minor | RequestMinor => q.httpMinor
    case Status => q.statusCode
  }

  lemma FirstNumberByte(q: Parser, k: Number, ch: char)
    requires q.state == FirstState(k) && IsDigit(ch) && (IsMajor(k) ==> ch != '0')
    ensures FirstLineByte(q, ch) == Next(WithNumber(q, k, DigitValue(ch)).(state := DigitState(k)), [])
  {
  }

  lemma NextNumberByte(q: Parser, k: Number, ch: char)
    requires q.state == DigitState(k) && IsDigit(ch) && NumberOf(q, k) * 10 + DigitValue(ch) <= 999
    ensures FirstLineByte(q, ch) == Next(WithNumber(q, k, NumberOf(q, k) * 10 + DigitValue(ch)), [])
  {
  }

  lemma NumberQuiet(k: Number)
    ensures Open(DigitState(k)) == [] && InFirstLine(FirstState(k)) && InFirstLine(DigitState(k))
  {
  }

  predicate IsDigits(s: string) { s != [] && forall i :: 0 <= i < |s| ==> IsDigit(s[i]) }

  /** A numeral the parser takes: no leading zero in a major version. */
  predicate NumberOk(k: Number, s: string) { IsDigits(s) && Decimal(s) <= 999 && (IsMajor(k) ==> s[0] != '0') }

  /** After the digits `s` the stored number is their decimal value. */
  function Numbered(q: Parser, k: Number, s: string): Parser
    requires IsDigits(s)
  {
    WithNumber(q, k, Decimal(s)).(state := DigitState(k), nread := q.nread + |s|)
  }

  lemma FirstOfNumber(q: Parser, k: Number, ch: char)
    requires q.state == FirstState(k) && IsDigit(ch) && (IsMajor(k) ==> ch != '0')
    ensures Decimal([ch]) == DigitValue(ch)
    ensures Silent(q, [ch], Numbered(q, k, [ch]))
  {
    hide Silent, FirstLineByte, Open;
    assert [ch][..0] == [] && Decimal([]) == 0;
    NumberQuiet(k);
    SilentNothing(q);
    FirstNumberByte(q.(nread := q.nread + 1), k, ch);
    assert [] + [ch] == [ch];
    LineSilent(q, [], q, ch, Numbered(q, k, [ch]));
  }

  lemma OneMoreDigit(s: string, ch: char)
    requires IsNumeral(s) && IsDigit(ch)
    ensures Decimal(s + [ch]) == 10 * Decimal(s) + DigitValue(ch)
  {
    assert (s + [ch])[..|s + [ch]| - 1] == s;
  }

  lemma {:induction false} NumberRun(q: Parser, k: Number, s: string)
    requires q.state == FirstState(k) && NumberOk(k, s)
    ensures Silent(q, s, Numbered(q, k, s))
    decreases |s|
  {
    hide Silent, FirstLineByte, Open, Decimal;
    var t, ch := s[..|s| - 1], s[|s| - 1];
    assert s == t + [ch];
    if t == [] {
      FirstOfNumber(q, k, ch);
    } else {
      OneMoreDigit(t, ch);
      NumberQuiet(k);
      NumberRun(q, k, t);
      var q1 := Numbered(q, k, t);
      NextNumberByte(q1.(nread := q1.nread + 1), k, ch);
      LineSilent(q, t, q1, ch, Numbered(q, k, s));
    }
  }

  /** The byte after a number, and where it leads. */
  function Stop(k: Number): char {
    match k case Major | RequestMajor => '.' case Minor | Status => ' ' case RequestMinor => CR
  }

  function AfterStop(k: Number): State {
    match k
    case Major => ResFirstHttpMinor
    case Minor => ResFirstStatusCode
    case Status => ResStatus
    case RequestMajor => ReqFirstHttpMinor
    case RequestMinor => ReqLineAlmostDone
  }

  lemma StopByte(q: Parser, k: Number)
    requires q.state == DigitState(k)
    ensures FirstLineByte(q, Stop(k)) == Next(q.(state := AfterStop(k)), []) && Open(AfterStop(k)) == []
  {
  }

  /** A number and the byte after it. */
  lemma NumberAndStop(q: Parser, k: Number, s: string)
    requires q.state == FirstState(k) && NumberOk(k, s)
    ensures Silent(q, s + [Stop(k)], WithNumber(q, k, Decimal(s)).(state := AfterStop(k), nread := q.nread + |s| + 1))
  {
    hide Silent, FirstLineByte, Decimal, Open;
    NumberRun(q, k, s);
    NumberQuiet(k);
    var q1 := Numbered(q, k, s);
    StopByte(q1.(nread := q1.nread + 1), k);
    LineSilent(q, s, q1, Stop(k), q1.(state := AfterStop(k), nread := q1.nread + 1));
  }

  /** A number, when the line ends there without a CR. */
  lemma NumberAndLine(q: Parser, k: Number, s: string)
    requires q.state == FirstState(k) && NumberOk(k, s) && (k.RequestMinor? || k.Status?)
    ensures Silent(q, s + [LF], WithNumber(q, k, Decimal(s)).(state := HeaderFieldStart, nread := q.nread + |s| + 1))
  {
    hide Silent, FirstLineByte, Decimal, Open;
    NumberRun(q, k, s);
    NumberQuiet(k);
    var q1 := Numbered(q, k, s);
    LineByteEnds(q1.(nread := q1.nread + 1), k);
    LineSilent(q, s, q1, LF, q1.(state := HeaderFieldStart, nread := q1.nread + 1));
  }

  lemma LineByteEnds(q: Parser, k: Number)
    requires q.state == DigitState(k) && (k.RequestMinor? || k.Status?)
    ensures FirstLineByte(q, LF) == Next(q.(state := HeaderFieldStart), []) && Open(HeaderFieldStart) == []
  {
  }

  lemma SilentTwice(q: Parser, s: string, q1: Parser, t: string, q2: Parser)
    requires Silent(q, s, q1) && Silent(q1, t, q2)
    ensures Silent(q, s + t, q2)
  {
    hide FreeStep, FreeFeed;
    FreeFeedAppend(q, s, t);
  }
}
