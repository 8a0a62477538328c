/** A reference reader for header blocks that keeps each name and value whole and
    compares strings at the end of the line, and the proof that the incremental
    recogniser of the parser is that reader. */
module Headers {
  import opened Spelling
  import opened Syntax
  import opened Machine
  import opened Messages
  import opened Frames

  // ----- Plain comparisons -----

  function TrimRight(s: string): (r: string)
    ensures r <= s
  {
    if s != [] && s[|s| - 1] == ' ' then TrimRight(s[..|s| - 1]) else s
  }

  function LowerName(s: string): (r: string)
    ensures |r| == |s|
  {
    seq(|s|, i requires 0 <= i < |s| => Token(s[i]))
  }

  function LowerValue(s: string): (r: string)
    ensures |r| == |s|
  {
    seq(|s|, i requires 0 <= i < |s| => Lower(s[i]))
  }

  /** The name, without trailing spaces and in any case, is the literal. */
  predicate NameIs(name: string, literal: string) { SameLetters(TrimRight(name), literal) }

  predicate ValueIs(value: string, literal: string) { SameLetters(TrimRight(value), literal) }

  predicate IsConnection(name: string) { NameIs(name, CONNECTION) || NameIs(name, PROXY_CONNECTION) }

  /** A decimal numeral in which spaces do not count. */
  function Decimal(s: string): nat
    requires forall i :: 0 <= i < |s| ==> IsDigit(s[i]) || s[i] == ' '
  {
    if s == [] then 0
    else
      var n := Decimal(s[..|s| - 1]);
      var c := s[|s| - 1];
      if c == ' ' then n else 10 * n + DigitValue(c)
  }

  predicate IsNumeral(s: string) {
    forall i :: 0 <= i < |s| ==> IsDigit(s[i]) || s[i] == ' '
  }

  // ----- The reader -----

  /** What a header block says about framing. */
  datatype Fields = Fields(chunked: bool, keepAlive: bool, close: bool, upgrade: bool, length: nat)

  /** One complete line, by plain string comparison. */
  function Apply(f: Fields, name: string, value: string): Fields
    requires NameIs(name, CONTENT_LENGTH) ==> IsNumeral(value)
  {
    Fields(
      f.chunked || (NameIs(name, TRANSFER_ENCODING) && ValueIs(value, CHUNKED)),
      f.keepAlive || (IsConnection(name) && ValueIs(value, KEEP_ALIVE)),
      f.close || (IsConnection(name) && ValueIs(value, CLOSE)),
      f.upgrade || NameIs(name, UPGRADE),
      if NameIs(name, CONTENT_LENGTH) then Wrap(Decimal(value)) else f.length)
  }

  /** The line being read, whole. */
  datatype Line =
    | LineStart
    | InName(name: string)
    | BeforeValue(name: string)
    | InValue(name: string, value: string)
    | AfterCR

  /** `Ended` is the empty line, at the index of its first byte. */
  datatype Reading =
    | Reading(line: Line, fields: Fields)
    | Refused
    | Ended(fields: Fields)

  predicate ValueByteOk(name: string, value: string, ch: char) {
    NameIs(name, CONTENT_LENGTH) ==> IsDigit(ch) || (value != [] && ch == ' ')
  }

  predicate WellRead(line: Line) {
    match line
    case InName(n) => n != [] && forall i :: 0 <= i < |n| ==> IsToken(n[i])
    case BeforeValue(n) => n != [] && forall i :: 0 <= i < |n| ==> IsToken(n[i])
    case InValue(n, v) =>
      && n != [] && v != [] && (forall i :: 0 <= i < |n| ==> IsToken(n[i]))
      && (NameIs(n, CONTENT_LENGTH) ==> IsNumeral(v)) && CR !in v
    case _ => true
  }

  function ReadByte(line: Line, f: Fields, ch: char): Reading
    requires WellRead(line)
  {
    match line
    case LineStart =>
      if ch == CR || ch == LF then Ended(f)
      else if IsToken(ch) then Reading(InName([ch]), f)
      else Refused
    case InName(n) =>
      if IsToken(ch) then Reading(InName(n + [ch]), f)
      else if ch == ':' then Reading(BeforeValue(n), f)
      else if ch == CR then Reading(AfterCR, f)
      else if ch == LF then Reading(LineStart, f)
      else Refused
    case BeforeValue(n) =>
      if ch == ' ' then Reading(line, f)
      else if ch == CR then Reading(AfterCR, f)
      else if ch == LF then Reading(LineStart, f)
      else if ValueByteOk(n, [], ch) then Reading(InValue(n, [ch]), f)
      else Refused
    case InValue(n, v) =>
      if ch == CR then Reading(AfterCR, Apply(f, n, v))
      else if ch == LF then Reading(LineStart, Apply(f, n, v))
      else if ValueByteOk(n, v, ch) then Reading(InValue(n, v + [ch]), f)
      else Refused
    case AfterCR =>
      if ch == LF then Reading(LineStart, f) else Refused
  }

  // ----- What the recogniser's state says about the bytes so far -----

  predicate PrefixOf(l: string, literal: string) { |l| < |literal| && l == literal[..|l|] }

  /** The literal has been read, and nothing but spaces since. */
  predicate Done(l: string, s: string, literal: string) {
    && |literal| <= |l| == |s| && l[..|literal|] == literal
    && forall i :: |literal| <= i < |s| ==> s[i] == ' '
  }

  /** What one more byte makes of a literal. */
  predicate Moves(l: string, s: string, c: char, ch: char, literal: string) {
    && (PrefixOf(l + [c], literal) <==> PrefixOf(l, literal) && |l| + 1 < |literal| && c == literal[|l|])
    && (Done(l + [c], s + [ch], literal) <==>
          (PrefixOf(l, literal) && |l| + 1 == |literal| && c == literal[|l|]) || (Done(l, s, literal) && ch == ' '))
  }

  lemma LiteralStep(l: string, s: string, c: char, ch: char, literal: string)
    requires |l| == |s| > 0 && |literal| > 1
    ensures Moves(l, s, c, ch, literal)
  {
    var l', s' := l + [c], s + [ch];
    if PrefixOf(l', literal) {
      assert l == l'[..|l|] == literal[..|l|];
      assert c == l'[|l|];
    }
    if PrefixOf(l, literal) && |l| + 1 < |literal| && c == literal[|l|] {
      assert literal[..|l| + 1] == literal[..|l|] + [literal[|l|]];
    }
    if Done(l', s', literal) {
      if |l| + 1 == |literal| {
        assert l' == literal && c == l'[|l|] && l == l'[..|l|];
      } else {
        assert l[..|literal|] == l'[..|literal|];
        forall i | |literal| <= i < |s| ensures s[i] == ' ' { assert s'[i] == s[i]; }
        assert s'[|s|] == ch;
      }
    }
    if PrefixOf(l, literal) && |l| + 1 == |literal| && c == literal[|l|] {
      assert l' == literal;
    }
    if Done(l, s, literal) && ch == ' ' {
      assert l'[..|literal|] == l[..|literal|];
    }
  }

  /** Which literal it is shows in the first and the fourth byte. */
  lemma Distinct(l: string, s: string, literal: string)
    requires |l| == |s| > 0 && |literal| > 3
    requires PrefixOf(l, literal) || Done(l, s, literal)
    ensures l[0] == literal[0] && (|l| > 3 ==> l[3] == literal[3])
    ensures !(PrefixOf(l, literal) && Done(l, s, literal))
  {
    if PrefixOf(l, literal) {
      assert literal[..|l|][0] == literal[0];
      if |l| > 3 { assert literal[..|l|][3] == literal[3]; }
    } else {
      assert l[..|literal|][0] == l[0] && l[..|literal|][3] == l[3];
    }
  }

  /** The header state after the name bytes `s`, by plain comparison. */
  function NameState(s: string): HeaderState {
    var l := LowerName(s);
    if Done(l, s, CONNECTION) || Done(l, s, PROXY_CONNECTION) then Connection
    else if Done(l, s, CONTENT_LENGTH) then ContentLength
    else if Done(l, s, TRANSFER_ENCODING) then TransferEncoding
    else if Done(l, s, UPGRADE) then Upgrade
    else if PrefixOf(l, CONNECTION) && |l| <= 3 then if |l| == 1 then C else if |l| == 2 then CO else CON
    else if PrefixOf(l, CONNECTION) then MatchingConnection
    else if PrefixOf(l, CONTENT_LENGTH) then MatchingContentLength
    else if PrefixOf(l, PROXY_CONNECTION) then MatchingProxyConnection
    else if PrefixOf(l, TRANSFER_ENCODING) then MatchingTransferEncoding
    else if PrefixOf(l, UPGRADE) then MatchingUpgrade
    else General
  }

  predicate Counts(h: HeaderState) {
    !(|| h.General? || h.Connection? || h.ContentLength? || h.TransferEncoding? || h.Upgrade?
      || h.Chunked? || h.KeepAlive? || h.Close?)
  }

  predicate NameMatches(q: Parser, s: string) {
    q.headerState == NameState(s) && (Counts(q.headerState) ==> q.index == |s| - 1)
  }

  lemma LowerNameSnoc(s: string, ch: char)
    ensures LowerName(s + [ch]) == LowerName(s) + [Token(ch)]
  {
    hide Token;
  }

  /** The two literals that begin alike. */
  lemma ConOrCon(l: string)
    requires 0 < |l| <= 3
    ensures PrefixOf(l, CONNECTION) <==> PrefixOf(l, CONTENT_LENGTH)
  {
    assert CONNECTION[..3] == CONTENT_LENGTH[..3] == "con";
    assert CONNECTION[..|l|] == CONNECTION[..3][..|l|] && CONTENT_LENGTH[..|l|] == CONTENT_LENGTH[..3][..|l|];
  }

  lemma NameLiterals(s: string, ch: char)
    requires s != []
    ensures LowerName(s + [ch]) == LowerName(s) + [Token(ch)]
    ensures var l, c := LowerName(s), Token(ch);
            && Moves(l, s, c, ch, CONNECTION) && Moves(l, s, c, ch, PROXY_CONNECTION)
            && Moves(l, s, c, ch, CONTENT_LENGTH) && Moves(l, s, c, ch, TRANSFER_ENCODING) && Moves(l, s, c, ch, UPGRADE)
  {
    hide LowerName, PrefixOf, Done, Token;
    var l, c := LowerName(s), Token(ch);
    LowerNameSnoc(s, ch);
    LiteralStep(l, s, c, ch, CONNECTION);
    LiteralStep(l, s, c, ch, PROXY_CONNECTION);
    LiteralStep(l, s, c, ch, CONTENT_LENGTH);
    LiteralStep(l, s, c, ch, TRANSFER_ENCODING);
    LiteralStep(l, s, c, ch, UPGRADE);
  }

  lemma NameStepEarly(q: Parser, s: string, ch: char)
    requires 0 < |s| <= 3 && NameMatches(q, s)
    ensures var o := NameByte(q, ch, Token(ch)); o.Next? && NameMatches(o.q, s + [ch])
  {
    hide LowerName, PrefixOf, Done, Token;
    var l, c := LowerName(s), Token(ch);
    NameLiterals(s, ch);
    ConOrCon(l);
    OneLiteral(l, s);
    assert CONNECTION[1] == 'o' && CONNECTION[2] == 'n' && CONNECTION[3] == 'n' && CONTENT_LENGTH[3] == 't';
    if |l| < 3 { ConOrCon(l + [c]); }
  }

  lemma NameStepLate(q: Parser, s: string, ch: char)
    requires |s| > 3 && NameMatches(q, s)
    ensures var o := NameByte(q, ch, Token(ch)); o.Next? && NameMatches(o.q, s + [ch])
  {
    hide LowerName, PrefixOf, Done, Token;
    var l, c := LowerName(s), Token(ch);
    NameLiterals(s, ch);
    OneLiteral(l, s);
  }

  /** One byte of a name: the incremental comparison is the plain one. */
  lemma NameStep(q: Parser, s: string, ch: char)
    requires s != [] && NameMatches(q, s)
    ensures var o := NameByte(q, ch, Token(ch)); o.Next? && NameMatches(o.q, s + [ch])
  {
    hide NameMatches, NameByte, Token;
    if |s| <= 3 { NameStepEarly(q, s, ch); } else { NameStepLate(q, s, ch); }
  }

  predicate Alive(l: string, s: string, literal: string) { PrefixOf(l, literal) || Done(l, s, literal) }

  lemma OneLiteral(l: string, s: string)
    requires |l| == |s| > 0
    ensures Alive(l, s, PROXY_CONNECTION) ==> !Alive(l, s, CONNECTION) && !Alive(l, s, CONTENT_LENGTH)
    ensures Alive(l, s, TRANSFER_ENCODING) ==> !Alive(l, s, CONNECTION) && !Alive(l, s, CONTENT_LENGTH) && !Alive(l, s, PROXY_CONNECTION)
    ensures Alive(l, s, UPGRADE) ==> !Alive(l, s, CONNECTION) && !Alive(l, s, CONTENT_LENGTH) && !Alive(l, s, PROXY_CONNECTION) && !Alive(l, s, TRANSFER_ENCODING)
    ensures |l| > 3 && Alive(l, s, CONNECTION) ==> !Alive(l, s, CONTENT_LENGTH)
    ensures !(PrefixOf(l, CONNECTION) && Done(l, s, CONNECTION))
    ensures !(PrefixOf(l, PROXY_CONNECTION) && Done(l, s, PROXY_CONNECTION))
    ensures !(PrefixOf(l, CONTENT_LENGTH) && Done(l, s, CONTENT_LENGTH))
    ensures !(PrefixOf(l, TRANSFER_ENCODING) && Done(l, s, TRANSFER_ENCODING))
    ensures !(PrefixOf(l, UPGRADE) && Done(l, s, UPGRADE))
    ensures |l| <= 3 ==> !Done(l, s, CONNECTION) && !Done(l, s, PROXY_CONNECTION) && !Done(l, s, CONTENT_LENGTH)
                         && !Done(l, s, TRANSFER_ENCODING) && !Done(l, s, UPGRADE)
    ensures PrefixOf(l, CONNECTION) ==> |l| < |CONNECTION|
    ensures PrefixOf(l, PROXY_CONNECTION) ==> |l| < |PROXY_CONNECTION|
    ensures PrefixOf(l, CONTENT_LENGTH) ==> |l| < |CONTENT_LENGTH|
    ensures PrefixOf(l, TRANSFER_ENCODING) ==> |l| < |TRANSFER_ENCODING|
    ensures PrefixOf(l, UPGRADE) ==> |l| < |UPGRADE|
  {
    if Alive(l, s, CONNECTION) { Distinct(l, s, CONNECTION); }
    if Alive(l, s, PROXY_CONNECTION) { Distinct(l, s, PROXY_CONNECTION); }
    if Alive(l, s, CONTENT_LENGTH) { Distinct(l, s, CONTENT_LENGTH); }
    if Alive(l, s, TRANSFER_ENCODING) { Distinct(l, s, TRANSFER_ENCODING); }
    if Alive(l, s, UPGRADE) { Distinct(l, s, UPGRADE); }
  }

  // ----- Capitals and small letters -----

  /** The literals are small letters and hyphens. */
  predicate Small(literal: string) { forall i :: 0 <= i < |literal| ==> IsLower(literal[i]) || literal[i] == '-' }

  lemma SmallLiterals()
    ensures Small(CONNECTION) && Small(PROXY_CONNECTION) && Small(CONTENT_LENGTH) && Small(TRANSFER_ENCODING)
    ensures Small(UPGRADE) && Small(CHUNKED) && Small(KEEP_ALIVE) && Small(CLOSE)
  {
  }

  lemma TokenLetter(ch: char, c: char)
    requires IsLower(c) || c == '-'
    ensures Token(ch) == c <==> SmallLetter(ch) == c
  {
  }

  /** `LOWER` takes one other byte for a hyphen. */
  lemma LowerLetter(ch: char, c: char)
    requires (IsLower(c) || c == '-') && ch != CR
    ensures Lower(ch) == c <==> SmallLetter(ch) == c
  {
  }

  lemma NameLetters(s: string, literal: string)
    requires Small(literal)
    ensures LowerName(s) == literal <==> SameLetters(s, literal)
  {
    hide Token, SmallLetter, IsLower;
    if |s| == |literal| {
      forall i | 0 <= i < |s| ensures LowerName(s)[i] == literal[i] <==> SmallLetter(s[i]) == literal[i] {
        TokenLetter(s[i], literal[i]);
      }
    }
  }

  lemma ValueLetters(s: string, literal: string)
    requires Small(literal) && CR !in s
    ensures LowerValue(s) == literal <==> SameLetters(s, literal)
  {
    hide Lower, SmallLetter, IsLower;
    if |s| == |literal| {
      forall i | 0 <= i < |s| ensures LowerValue(s)[i] == literal[i] <==> SmallLetter(s[i]) == literal[i] {
        LowerLetter(s[i], literal[i]);
      }
    }
  }

  // ----- Trailing spaces -----

  lemma {:induction false} TrimmedName(s: string, literal: string)
    requires literal != [] && literal[|literal| - 1] != ' '
    ensures LowerName(TrimRight(s)) == literal <==> Done(LowerName(s), s, literal)
    decreases |s|
  {
    hide Token;
    TokenSpace();
    if s != [] && s[|s| - 1] == ' ' {
      var t := s[..|s| - 1];
      assert s == t + [' '];
      TrimmedName(t, literal);
      LowerNameSnoc(t, ' ');
      if |t| >= |literal| {
        assert LowerName(s)[..|literal|] == LowerName(t)[..|literal|];
        if Done(LowerName(s), s, literal) {
          forall i | |literal| <= i < |t| ensures t[i] == ' ' { assert s[i] == t[i]; }
        }
      }
    } else if s != [] {
      assert LowerName(s)[..|s|] == LowerName(s);
    }
  }

  lemma TokenSpace()
    ensures Token(' ') == ' '
  {
  }

  lemma LowerSpace()
    ensures Lower(' ') == ' '
  {
  }

  lemma LowerValueSnoc(s: string, ch: char)
    ensures LowerValue(s + [ch]) == LowerValue(s) + [Lower(ch)]
  {
    hide Lower;
  }

  lemma {:induction false} TrimmedValue(s: string, literal: string)
    requires literal != [] && literal[|literal| - 1] != ' '
    ensures LowerValue(TrimRight(s)) == literal <==> Done(LowerValue(s), s, literal)
    decreases |s|
  {
    hide Lower;
    LowerSpace();
    if s != [] && s[|s| - 1] == ' ' {
      var t := s[..|s| - 1];
      assert s == t + [' '];
      TrimmedValue(t, literal);
      LowerValueSnoc(t, ' ');
      if |t| >= |literal| {
        assert LowerValue(s)[..|literal|] == LowerValue(t)[..|literal|];
        if Done(LowerValue(s), s, literal) {
          forall i | |literal| <= i < |t| ensures t[i] == ' ' { assert s[i] == t[i]; }
        }
      }
    } else if s != [] {
      assert LowerValue(s)[..|s|] == LowerValue(s);
    }
  }

  lemma TrimNames(s: string, literal: string)
    requires literal != [] && Small(literal)
    ensures NameIs(s, literal) <==> Done(LowerName(s), s, literal)
  {
    hide LowerName, Done, SameLetters, TrimRight;
    NameLetters(TrimRight(s), literal);
    TrimmedName(s, literal);
  }

  lemma TrimValues(s: string, literal: string)
    requires literal != [] && Small(literal) && CR !in s
    ensures ValueIs(s, literal) <==> Done(LowerValue(s), s, literal)
  {
    hide LowerValue, Done, SameLetters;
    ValueLetters(TrimRight(s), literal);
    TrimmedValue(s, literal);
  }

  /** After the whole name the header state says which name it was. */
  lemma NameStateIs(s: string)
    requires s != []
    ensures NameState(s).Connection? <==> IsConnection(s)
    ensures NameState(s).ContentLength? <==> NameIs(s, CONTENT_LENGTH)
    ensures NameState(s).TransferEncoding? <==> NameIs(s, TRANSFER_ENCODING)
    ensures NameState(s).Upgrade? <==> NameIs(s, UPGRADE)
  {
    hide Done, PrefixOf, NameIs, LowerName, Small;
    SmallLiterals();
    TrimNames(s, CONNECTION);
    TrimNames(s, PROXY_CONNECTION);
    TrimNames(s, CONTENT_LENGTH);
    TrimNames(s, TRANSFER_ENCODING);
    TrimNames(s, UPGRADE);
    OneLiteral(LowerName(s), s);
  }

  // ----- Values -----

  /** The header state after the value bytes `v` of a header with state `h`. */
  function ValueState(h: HeaderState, v: string): HeaderState {
    var l := LowerValue(v);
    match h
    case TransferEncoding =>
      if Done(l, v, CHUNKED) then Chunked else if PrefixOf(l, CHUNKED) then MatchingChunked else General
    case Connection =>
      if Done(l, v, KEEP_ALIVE) then KeepAlive
      else if Done(l, v, CLOSE) then Close
      else if PrefixOf(l, KEEP_ALIVE) then MatchingKeepAlive
      else if PrefixOf(l, CLOSE) then MatchingClose
      else General
    case ContentLength => ContentLength
    case _ => General
  }

  predicate ValueMatches(q: Parser, h: HeaderState, v: string) {
    q.headerState == ValueState(h, v) && (Counts(q.headerState) ==> q.index == |v| - 1)
  }

  lemma TwoValues(l: string, s: string)
    requires |l| == |s| > 0
    ensures Alive(l, s, KEEP_ALIVE) ==> !Alive(l, s, CLOSE)
    ensures !(PrefixOf(l, KEEP_ALIVE) && Done(l, s, KEEP_ALIVE))
    ensures !(PrefixOf(l, CLOSE) && Done(l, s, CLOSE))
    ensures !(PrefixOf(l, CHUNKED) && Done(l, s, CHUNKED))
    ensures PrefixOf(l, KEEP_ALIVE) ==> |l| < |KEEP_ALIVE|
    ensures PrefixOf(l, CLOSE) ==> |l| < |CLOSE|
    ensures PrefixOf(l, CHUNKED) ==> |l| < |CHUNKED|
  {
    if Alive(l, s, KEEP_ALIVE) { Distinct(l, s, KEEP_ALIVE); }
    if Alive(l, s, CLOSE) { Distinct(l, s, CLOSE); }
  }

  lemma ValueStep(q: Parser, h: HeaderState, v: string, ch: char)
    requires v != [] && ValueMatches(q, h, v)
    requires h.ContentLength? ==> IsNumeral(v) && q.contentLength == Wrap(Decimal(v))
    ensures var o := ValueByte(q, ch);
            if h.ContentLength? && ch != ' ' && !IsDigit(ch) then o.Error?
            else
              && o.Next? && ValueMatches(o.q, h, v + [ch])
              && (h.ContentLength? ==> IsNumeral(v + [ch]) && o.q.contentLength == Wrap(Decimal(v + [ch])))
              && (!h.ContentLength? ==> o.q.contentLength == q.contentLength)
  {
    hide LowerValue, PrefixOf, Done, Lower, Decimal, Wrap;
    var l, c := LowerValue(v), Lower(ch);
    LowerValueSnoc(v, ch);
    LiteralStep(l, v, c, ch, CHUNKED);
    LiteralStep(l, v, c, ch, KEEP_ALIVE);
    LiteralStep(l, v, c, ch, CLOSE);
    TwoValues(l, v);
    if h.ContentLength? && (ch == ' ' || IsDigit(ch)) { DecimalSnoc(v, ch); }
  }

  /** The value of a longer numeral, modulo 2^64. */
  lemma DecimalSnoc(v: string, ch: char)
    requires IsNumeral(v) && (IsDigit(ch) || ch == ' ')
    ensures IsNumeral(v + [ch])
    ensures ch == ' ' ==> Decimal(v + [ch]) == Decimal(v)
    ensures IsDigit(ch) ==> Wrap(Decimal(v + [ch])) == Wrap(Wrap(Decimal(v)) * 10 + DigitValue(ch))
  {
    assert (v + [ch])[..|v + [ch]| - 1] == v;
    if IsDigit(ch) { WrapStep(Decimal(v), 10, DigitValue(ch)); }
  }

  lemma WrapStep(n: nat, k: nat, d: nat)
    ensures Wrap(Wrap(n) * k + d) == Wrap(n * k + d)
  {
    var t := n / SIZE_MODULUS;
    assert n == t * SIZE_MODULUS + Wrap(n);
    assert n * k + d == (t * k) * SIZE_MODULUS + (Wrap(n) * k + d) by {
      assert (t * SIZE_MODULUS) * k == (t * k) * SIZE_MODULUS;
    }
    ModShift(Wrap(n) * k + d, t * k);
  }

  lemma {:induction false} ModShift(n: nat, t: nat)
    ensures (n + t * SIZE_MODULUS) % SIZE_MODULUS == n % SIZE_MODULUS
    decreases t
  {
    if t > 0 { ModShift(n, t - 1); }
  }

  // ----- The parser simulates the reader -----

  predicate SameFlags(g: Flags, f: Fields, upgrade: bool) {
    g.chunked == f.chunked && g.keepAlive == f.keepAlive && g.close == f.close && g.upgrade == upgrade
  }

  /** The parser's state stands for the line the reader has kept. */
  predicate Stands(q: Parser, line: Line, f: Fields) {
    WellRead(line) &&
    match line
    case LineStart =>
      q.state.HeaderFieldStart? && SameFlags(q.flags, f, f.upgrade) && q.contentLength == f.length
    case InName(n) =>
      q.state.HeaderField? && NameMatches(q, n) && SameFlags(q.flags, f, f.upgrade) && q.contentLength == f.length
    case BeforeValue(n) =>
      && q.state.HeaderValueStart? && q.headerState == NameState(n)
      && SameFlags(q.flags, f, f.upgrade) && q.contentLength == f.length
    case InValue(n, v) =>
      && q.state.HeaderValue? && ValueMatches(q, NameState(n), v)
      && SameFlags(q.flags, f, f.upgrade || NameState(n).Upgrade?)
      && q.contentLength == if NameState(n).ContentLength? && IsNumeral(v) then Wrap(Decimal(v)) else f.length
    case AfterCR =>
      && q.state.HeaderAlmostDone?
      && SameFlags(EndOfValue(q, []).q.flags, f, f.upgrade) && q.contentLength == f.length
  }

  /** The reader's next state stands, or both refuse, or both are at the empty line. */
  predicate StandsAfter(o: Outcome, r: Reading) {
    match r
    case Reading(line, f) => o.Next? && Stands(o.q, line, f)
    case Refused => o.Error?
    case Ended(_) => true
  }

  lemma NameStarts(q: Parser, f: Fields, ch: char)
    requires Stands(q, LineStart, f)
    ensures StandsAfter(HeaderNameByte(q, ch), ReadByte(LineStart, f, ch))
  {
    hide EndOfHeaders, Token;
    if ch != CR && ch != LF && IsToken(ch) {
      FirstByte([ch], ch);
    }
  }

  lemma FirstByte(s: string, ch: char)
    requires s == [ch] && IsToken(ch)
    ensures FirstNameByte(Token(ch)) == NameState(s)
  {
    hide Token;
    var l := LowerName(s);
    assert l == [Token(ch)];
    OneLiteral(l, s);
    ConOrCon(l);
    FirstPrefix(l, CONNECTION);
    FirstPrefix(l, PROXY_CONNECTION);
    FirstPrefix(l, TRANSFER_ENCODING);
    FirstPrefix(l, UPGRADE);
  }

  lemma FirstPrefix(l: string, literal: string)
    requires |l| == 1 && |literal| > 1
    ensures PrefixOf(l, literal) <==> l[0] == literal[0]
  {
    assert literal[..1] == [literal[0]];
  }

  lemma NameGoesOn(q: Parser, n: string, f: Fields, ch: char)
    requires Stands(q, InName(n), f)
    ensures StandsAfter(HeaderNameByte(q, ch), ReadByte(InName(n), f, ch))
  {
    hide NameByte, Token, EndOfHeaders, NameState, NameMatches;
    NameStep(q, n, ch);
    NamePhaseOf(q, n);
    NameKeeps(q, ch);
  }

  lemma NameKeeps(q: Parser, ch: char)
    ensures var o := NameByte(q, ch, Token(ch));
            o.Next? ==> o.q == q.(headerState := o.q.headerState, index := o.q.index)
  {
    hide Token;
  }

  /** A header state of the name phase sets no flag at the end of its line. */
  lemma NamePhaseOf(q: Parser, n: string)
    requires NameMatches(q, n)
    ensures EndOfValue(q.(state := HeaderAlmostDone), []).q.flags == q.flags
    ensures q.headerState == NameState(n)
  {
    hide Done, PrefixOf;
  }

  lemma ValueStarts(q: Parser, n: string, f: Fields, ch: char)
    requires Stands(q, BeforeValue(n), f)
    ensures StandsAfter(HeaderValueByte(q, ch), ReadByte(BeforeValue(n), f, ch))
  {
    hide NameState, Lower, FirstValueByte;
    NameStateIs(n);
    if ch != ' ' && ch != CR && ch != LF {
      FirstValue(q, n, ch);
      FirstValueFrame(q, ch);
    }
  }

  lemma FirstValue(q: Parser, n: string, ch: char)
    requires n != [] && q.headerState == NameState(n)
    ensures var o := FirstValueByte(q, ch);
            var h := NameState(n);
            if h.ContentLength? && !IsDigit(ch) then o.Error?
            else
              && o.Next? && ValueMatches(o.q, h, [ch])
              && o.q.flags == (if h.Upgrade? then q.flags.(upgrade := true) else q.flags)
              && (h.ContentLength? ==> IsNumeral([ch]) && o.q.contentLength == Wrap(Decimal([ch])))
              && (!h.ContentLength? ==> o.q.contentLength == q.contentLength)
  {
    hide NameState, Lower;
    var l := LowerValue([ch]);
    assert l == [Lower(ch)];
    FirstPrefix(l, CHUNKED);
    FirstPrefix(l, KEEP_ALIVE);
    FirstPrefix(l, CLOSE);
    if IsDigit(ch) {
      assert [ch][..0] == [];
      assert Decimal([ch]) == DigitValue(ch);
    }
  }

  lemma ValueGoesOn(q: Parser, n: string, v: string, f: Fields, ch: char)
    requires Stands(q, InValue(n, v), f)
    ensures StandsAfter(HeaderValueByte(q, ch), ReadByte(InValue(n, v), f, ch))
  {
    hide NameState, ValueByte, ValueMatches;
    NameStateIs(n);
    if ch == CR || ch == LF {
      ValueEnds(q, n, v, f);
    } else {
      ValueStep(q, NameState(n), v, ch);
      ValueKeeps(q, ch);
    }
  }

  lemma ValueKeeps(q: Parser, ch: char)
    ensures var o := ValueByte(q, ch);
            o.Next? ==> o.q == q.(headerState := o.q.headerState, index := o.q.index, contentLength := o.q.contentLength)
  {
    hide Lower;
  }

  /** At the end of the line the flags are those of the plain comparison. */
  lemma ValueEnds(q: Parser, n: string, v: string, f: Fields)
    requires Stands(q, InValue(n, v), f)
    ensures SameFlags(EndOfValue(q, []).q.flags, Apply(f, n, v), Apply(f, n, v).upgrade)
    ensures q.contentLength == Apply(f, n, v).length
  {
    hide NameState, Done, PrefixOf, LowerValue, NameIs, ValueIs, Small;
    NameStateIs(n);
    SmallLiterals();
    TrimValues(v, CHUNKED);
    TrimValues(v, KEEP_ALIVE);
    TrimValues(v, CLOSE);
    TwoValues(LowerValue(v), v);
    NotBoth(n);
  }

  lemma NotBoth(n: string)
    requires n != []
    ensures IsConnection(n) ==> !NameIs(n, TRANSFER_ENCODING)
  {
    NameStateIs(n);
  }

  /** One byte of a header block: the recogniser simulates the reader. */
  lemma HeaderByte(q: Parser, line: Line, f: Fields, ch: char)
    requires Stands(q, line, f)
    ensures StandsAfter(FreeStep(q, ch), ReadByte(line, f, ch))
  {
    hide StartByte, StatusLineByte, UrlByte, RequestVersionByte, HeaderNameByte, HeaderValueByte, BodyStep,
         EndOfHeaders, ReadByte, NameState, NameMatches, ValueMatches;
    var c := Count(q);
    CountStands(q, line, f);
    match line
    case LineStart => NameStarts(c, f, ch);
    case InName(n) => NameGoesOn(c, n, f, ch);
    case BeforeValue(n) => ValueStarts(c, n, f, ch);
    case InValue(n, v) => ValueGoesOn(c, n, v, f, ch);
    case AfterCR => LineEnds(c, f, ch);
  }

  lemma CountStands(q: Parser, line: Line, f: Fields)
    requires Stands(q, line, f)
    ensures Stands(Count(q), line, f)
  {
    hide NameState;
  }

  lemma LineEnds(q: Parser, f: Fields, ch: char)
    requires Stands(q, AfterCR, f)
    ensures StandsAfter(HeaderValueByte(q, ch), ReadByte(AfterCR, f, ch))
  {
  }

  // ----- Whole header blocks -----

  /** Where the reader is after `s`, and how much it took. */
  datatype Block =
    | More(line: Line, fields: Fields)
    | Bad(at: nat)
    | Whole(at: nat, fields: Fields)

  function Read(line: Line, f: Fields, s: string): Block
    requires WellRead(line)
    decreases |s|
  {
    if s == [] then More(line, f)
    else match ReadByte(line, f, s[0])
      case Refused => Bad(0)
      case Ended(g) => Whole(0, g)
      case Reading(line', g) =>
        ReadKeeps(line, f, s[0]);
        match Read(line', g, s[1..])
        case More(l, h) => More(l, h)
        case Bad(n) => Bad(n + 1)
        case Whole(n, h) => Whole(n + 1, h)
  }

  lemma ReadKeeps(line: Line, f: Fields, ch: char)
    requires WellRead(line)
    ensures var r := ReadByte(line, f, ch); r.Reading? ==> WellRead(r.line)
  {
    hide Token, NameIs;
  }

  function FieldsOf(q: Parser): Fields {
    Fields(q.flags.chunked, q.flags.keepAlive, q.flags.close, q.flags.upgrade, q.contentLength)
  }

  /** The incremental recogniser is the reader that compares whole strings: on every
      input it accepts and refuses the same bytes, and at the end of a header block it
      has the same flags and the same length. */
  lemma {:induction false} HeaderBlock(q: Parser, line: Line, f: Fields, s: string)
    requires Stands(q, line, f)
    ensures match Read(line, f, s)
            case More(line', g) => FreeFeed(q, s).Consumed? && Stands(FreeFeed(q, s).q, line', g)
            case Bad(n) => FreeFeed(q, s).Stopped? && FreeFeed(q, s).at == n && FreeFeed(q, s).reason.BadByte?
            case Whole(n, g) =>
              && n < |s| && (s[n] == CR || s[n] == LF)
              && FreeFeed(q, s[..n]).Consumed?
              && FreeFeed(q, s[..n]).q.state.HeaderFieldStart?
              && FieldsOf(FreeFeed(q, s[..n]).q) == g
    decreases |s|
  {
    hide FreeStep, ReadByte, WellRead;
    if s != [] {
      HeaderByte(q, line, f, s[0]);
      ReadKeeps(line, f, s[0]);
      match ReadByte(line, f, s[0])
      case Refused =>
      case Ended(g) => BlockEnds(q, line, f, s[0]);
      case Reading(line', g) =>
        var o := FreeStep(q, s[0]);
        HeaderBlock(o.q, line', g, s[1..]);
        var r := Read(line', g, s[1..]);
        if r.Whole? {
          var n := r.at;
          assert s[..n + 1][0] == s[0] && s[..n + 1][1..] == s[1..][..n];
        }
    }
  }

  lemma BlockEnds(q: Parser, line: Line, f: Fields, ch: char)
    requires Stands(q, line, f) && ReadByte(line, f, ch).Ended?
    ensures (ch == CR || ch == LF) && q.state.HeaderFieldStart? && FieldsOf(q) == ReadByte(line, f, ch).fields
  {
    hide NameState;
  }
}
