/** Which chunked bodies are accepted: a run gets from the first size to the trailers after
    exactly the texts of some chunks and a last size line; and chunks whose sizes are printed. */
module Chunks {
  import opened Spelling
  import opened Syntax
  import opened Machine
  import opened Messages
  import opened Invariant
  import opened Split
  import opened Headers
  import opened HeaderLines
  import opened Bodies
  import opened Chunked

  // ----- Printed sizes -----

  function Power16(k: nat): nat { if k == 0 then 1 else 16 * Power16(k - 1) }

  lemma {:induction false} HexLength(n: nat, capitals: bool, k: nat)
    requires k > 0 && n < Power16(k)
    ensures |PrintHex(n, capitals)| <= k
    decreases k
  {
    if n >= 16 { HexLength(n / 16, capitals, k - 1); }
  }

  lemma SixteenDigits()
    ensures Power16(16) == SIZE_MODULUS
  {
    assert Power16(4) == 0x1_0000;
    assert Power16(8) == 0x1_0000_0000;
    assert Power16(12) == 0x1_0000_0000_0000;
  }

  /** A piece of a body as a chunk, its size printed with small letters or with capitals. */
  function ToChunk(data: string, capitals: bool): Chunk { Chunk(PrintHex(|data|, capitals), "", data) }

  lemma PrintedChunk(data: string, capitals: bool)
    requires 0 < |data| < SIGN_LIMIT
    ensures ChunkOk(ToChunk(data, capitals))
    ensures Encode(ToChunk(data, capitals)) == PrintHex(|data|, capitals) + "\r\n" + data + "\r\n"
  {
    hide PrintHex, IsHex, Hex;
    HexPrints(|data|, capitals);
    SixteenDigits();
    HexLength(|data|, capitals, 16);
    assert PrintHex(|data|, capitals) + [] == PrintHex(|data|, capitals);
  }

  function ToChunks(pieces: seq<string>, capitals: bool): (cs: seq<Chunk>)
    ensures |cs| == |pieces| && forall i :: 0 <= i < |cs| ==> cs[i] == ToChunk(pieces[i], capitals)
  {
    seq(|pieces|, i requires 0 <= i < |pieces| => ToChunk(pieces[i], capitals))
  }

  lemma {:induction false} PiecesData(pieces: seq<string>, capitals: bool)
    ensures DataOf(ToChunks(pieces, capitals)) == Concat(pieces)
    decreases |pieces|
  {
    if pieces != [] {
      PiecesData(pieces[1..], capitals);
      assert ToChunks(pieces, capitals)[1..] == ToChunks(pieces[1..], capitals);
    }
  }

  /** A body that is sent in pieces, each behind its printed length, comes back whole. */
  lemma PiecesBody(q: Parser, x: Inbox, pieces: seq<string>, capitals: bool)
    requires Inv(q) && q.state.ChunkSizeStart? && !x.cur.lastIsField
    requires forall i :: 0 <= i < |pieces| ==> 0 < |pieces[i]| < SIGN_LIMIT
    ensures Finished(Feed(q, EncodeAll(ToChunks(pieces, capitals)) + "0\r\n\r\n"), q, x, NewMessage(q), 2,
                     WithBody(x.cur, Concat(pieces)))
  {
    hide Feed, Inv, ChunkOk, EncodeAll, NewMessage, ToChunk, WithBody, DataOf, Finished;
    var cs := ToChunks(pieces, capitals);
    forall i | 0 <= i < |cs| ensures ChunkOk(cs[i]) { PrintedChunk(pieces[i], capitals); }
    PiecesData(pieces, capitals);
    LastZero();
    ChunkedBody(q, x, cs, "0", "", []);
    assert WithLines(WithBody(x.cur, DataOf(cs)), []) == WithBody(x.cur, DataOf(cs));
    NoTrailers(q);
  }

  lemma LastZero()
    ensures SizeOk("0", "") && Wrap(Hex("0")) == 0
    ensures LastChunk("0", "", []) == "0\r\n\r\n" && PrintLines([]) == []
  {
    assert "0"[..0] == [] && Hex([]) == 0;
  }

  lemma NoTrailers(q: Parser)
    ensures NewMessage(WithTrailers(q, [])) == NewMessage(q)
  {
  }

  // ----- Reading a chunked body -----

  /** The run ends where header lines begin: those after the last chunk. */
  predicate Ends(q: Parser, s: string) {
    var r := Feed(q, s);
    r.Consumed? && r.q.state.HeaderFieldStart?
  }

  lemma EndsOn(q: Parser, s: string)
    requires Ends(q, s) && !q.state.HeaderFieldStart?
    ensures s != [] && s == [s[0]] + s[1..]
    ensures FreeStep(q, s[0]).Next? && Ends(FreeStep(q, s[0]).q, s[1..])
    ensures ParsingHeader(q.state) ==> q.nread < MAX_HEADER_SIZE
  {
    hide FreeStep;
  }

  /** The states of a chunked body. */
  predicate InChunk(q: Parser) {
    && q.flags.chunked
    && (q.state.ChunkSizeStart? || q.state.ChunkSize? || q.state.ChunkParameters? || q.state.ChunkSizeAlmostDone?
        || q.state.ChunkData? || q.state.ChunkDataAlmostDone? || q.state.ChunkDataDone?)
  }

  /** A size so far, and the bytes of the line it took. */
  predicate Sized(q: Parser, size: string, extension: string) {
    && size != [] && IsHex(size) && q.contentLength == Wrap(Hex(size)) && q.nread == |size| + |extension|
    && (extension != [] ==> extension[0] == ';' || extension[0] == ' ')
    && (forall i :: 0 <= i < |extension| ==> extension[i] != CR)
  }

  lemma SizeStarts(q: Parser, ch: char)
    requires InChunk(q) && q.state.ChunkSizeStart? && q.nread == 0 && FreeStep(q, ch).Next?
    ensures Worth(ch) >= 0
    ensures FreeStep(q, ch).q == q.(contentLength := Worth(ch), nread := 1, state := ChunkSize)
  {
    hide Worth, Unhex;
    UnhexTable(ch);
  }

  lemma SizeGoes(q: Parser, ch: char)
    requires InChunk(q) && q.state.ChunkSize? && FreeStep(q, ch).Next?
    ensures FreeStep(q, ch).q ==
            var q1 := q.(nread := q.nread + 1);
            if Worth(ch) >= 0 then q1.(contentLength := Wrap(q.contentLength * 16 + Worth(ch)))
            else if ch == CR then q1.(state := ChunkSizeAlmostDone)
            else q1.(state := ChunkParameters)
    ensures Worth(ch) >= 0 || ch == CR || ch == ';' || ch == ' '
  {
    hide Worth, Unhex, Wrap;
    UnhexTable(ch);
    if Worth(ch) >= 0 { HexNotBreak(ch); }
  }

  lemma ParameterGoes(q: Parser, ch: char)
    requires InChunk(q) && q.state.ChunkParameters? && FreeStep(q, ch).Next?
    ensures FreeStep(q, ch).q ==
            q.(nread := q.nread + 1, state := if ch == CR then ChunkSizeAlmostDone else ChunkParameters)
  {
  }

  lemma LineGoes(q: Parser, ch: char)
    requires InChunk(q) && q.state.ChunkSizeAlmostDone? && FreeStep(q, ch).Next?
    ensures ch == LF && FreeStep(q, ch).q == AfterSize(q, q.contentLength)
  {
  }

  lemma DataGoes(q: Parser, ch: char)
    requires InChunk(q) && q.state.ChunkData? && q.contentLength > 0 && FreeStep(q, ch).Next?
    ensures q.contentLength < SIGN_LIMIT
    ensures FreeStep(q, ch).q ==
            q.(contentLength := q.contentLength - 1,
               state := if q.contentLength == 1 then ChunkDataAlmostDone else ChunkData)
  {
  }

  lemma DataEndGoes(q: Parser, ch: char)
    requires InChunk(q) && (q.state.ChunkDataAlmostDone? || q.state.ChunkDataDone?) && FreeStep(q, ch).Next?
    ensures ch == if q.state.ChunkDataAlmostDone? then CR else LF
    ensures FreeStep(q, ch).q == q.(state := if q.state.ChunkDataAlmostDone? then ChunkDataDone else ChunkSizeStart)
  {
  }

  lemma MoreHex(size: string, ch: char)
    requires IsHex(size) && Worth(ch) >= 0
    ensures IsHex(size + [ch]) && Hex(size + [ch]) == 16 * Hex(size) + Worth(ch)
    ensures Wrap(Hex(size + [ch])) == Wrap(Wrap(Hex(size)) * 16 + Worth(ch))
  {
    hide Worth;
    assert (size + [ch])[..|size|] == size;
    WrapStep(Hex(size), 16, Worth(ch));
  }

  /** The rest of a size line, from the byte after its first digit. */
  lemma {:induction false} ScanSize(q: Parser, size: string, extension: string, s: string)
    returns (size': string, extension': string, rest: string, q1: Parser)
    requires InChunk(q) && Ends(q, s) && Sized(q, size, extension)
    requires if extension == [] then q.state.ChunkSize? else q.state.ChunkParameters?
    ensures SizeOk(size', extension') && size + extension + s == SizeLine(size', extension') + rest
    ensures Ends(q1, rest) && q1 == AfterSize(q, Wrap(Hex(size')))
    decreases |s|
  {
    hide FreeStep, Ends, IsHex, Hex, Wrap, AfterSize, Worth;
    EndsOn(q, s);
    var ch := s[0];
    var q0 := FreeStep(q, ch).q;
    if extension == [] { SizeGoes(q, ch); } else { ParameterGoes(q, ch); }
    if extension == [] && Worth(ch) >= 0 {
      MoreHex(size, ch);
      size', extension', rest, q1 := ScanSize(q0, size + [ch], extension, s[1..]);
      assert size + [ch] + extension + s[1..] == size + extension + s;
      SameAfterSize(q, q0, Wrap(Hex(size')));
    } else if ch == CR {
      EndsOn(q0, s[1..]);
      LineGoes(q0, s[1..][0]);
      size', extension', rest, q1 := size, extension, s[1..][1..], FreeStep(q0, s[1..][0]).q;
      assert size + extension + s == size + extension + CRLF + rest;
      SameAfterSize(q, q0, Wrap(Hex(size')));
    } else {
      size', extension', rest, q1 := ScanSize(q0, size, extension + [ch], s[1..]);
      assert size + (extension + [ch]) + s[1..] == size + extension + s;
      SameAfterSize(q, q0, Wrap(Hex(size')));
    }
  }

  lemma SameAfterSize(q: Parser, q0: Parser, n: nat)
    requires q0 == q.(contentLength := q0.contentLength, nread := q0.nread, state := q0.state)
    ensures AfterSize(q0, n) == AfterSize(q, n)
  {
  }

  /** The data of a chunk, as long as its size, and the line end after it. */
  lemma {:induction false} ScanData(q: Parser, s: string) returns (data: string, rest: string, q1: Parser)
    requires InChunk(q) && Ends(q, s) && q.state.ChunkData? && q.contentLength > 0
    ensures s == data + CRLF + rest && |data| == q.contentLength < SIGN_LIMIT
    ensures Ends(q1, rest) && q1 == q.(contentLength := 0, state := ChunkSizeStart)
    decreases |s|
  {
    hide FreeStep, Ends;
    EndsOn(q, s);
    DataGoes(q, s[0]);
    var q0 := FreeStep(q, s[0]).q;
    if q.contentLength > 1 {
      data, rest, q1 := ScanData(q0, s[1..]);
      data := [s[0]] + data;
    } else {
      var t := s[1..];
      EndsOn(q0, t);
      DataEndGoes(q0, t[0]);
      var q2 := FreeStep(q0, t[0]).q;
      EndsOn(q2, t[1..]);
      DataEndGoes(q2, t[1..][0]);
      data, rest, q1 := [s[0]], t[1..][1..], FreeStep(q2, t[1..][0]).q;
      assert s == [s[0]] + ([CR] + ([LF] + rest));
    }
  }

  /** A size line. */
  lemma ScanSizeLine(q: Parser, s: string) returns (size: string, extension: string, rest: string, q1: Parser)
    requires InChunk(q) && Ends(q, s) && q.state.ChunkSizeStart? && q.nread == 0
    ensures SizeOk(size, extension) && s == SizeLine(size, extension) + rest
    ensures Ends(q1, rest) && q1 == AfterSize(q, Wrap(Hex(size)))
  {
    hide FreeStep, Ends, Wrap, AfterSize, Worth, SizeLine;
    EndsOn(q, s);
    SizeStarts(q, s[0]);
    var q0 := FreeStep(q, s[0]).q;
    assert [s[0]][..0] == [] && Hex([]) == 0;
    SmallWrap(Worth(s[0]));
    size, extension, rest, q1 := ScanSize(q0, [s[0]], [], s[1..]);
    assert [s[0]] + [] + s[1..] == s;
    SameAfterSize(q, q0, Wrap(Hex(size)));
  }

  /** Chunks and a last size line: what gets a run to the trailers. */
  predicate ChunksThen(s: string, cs: seq<Chunk>, zero: string, extension: string) {
    && (forall i :: 0 <= i < |cs| ==> ChunkOk(cs[i])) && SizeOk(zero, extension) && Wrap(Hex(zero)) == 0
    && EncodeAll(cs) + SizeLine(zero, extension) <= s
  }

  lemma {:induction false} ScanChunks(q: Parser, s: string)
    returns (cs: seq<Chunk>, zero: string, extension: string)
    requires InChunk(q) && Ends(q, s) && q.state.ChunkSizeStart? && q.nread == 0
    ensures ChunksThen(s, cs, zero, extension)
    decreases |s|
  {
    hide Ends, IsHex, Hex, Wrap, SizeLine, Encode;
    var size, more, rest, q1 := ScanSizeLine(q, s);
    var n := Wrap(Hex(size));
    if n == 0 {
      cs, zero, extension := [], size, more;
      assert EncodeAll(cs) + SizeLine(zero, extension) == SizeLine(zero, extension);
    } else {
      var data, rest1, q2 := ScanData(q1, rest);
      var c := Chunk(size, more, data);
      EncodeIs(c);
      assert s == Encode(c) + rest1;
      cs, zero, extension := ScanChunks(q2, rest1);
      MoreChunks(c, cs, zero, extension, rest1);
      cs := [c] + cs;
    }
  }

  lemma EncodeIs(c: Chunk)
    ensures Encode(c) == SizeLine(c.size, c.extension) + c.data + CRLF
  {
  }

  lemma MoreChunks(c: Chunk, cs: seq<Chunk>, zero: string, extension: string, s: string)
    requires ChunkOk(c) && ChunksThen(s, cs, zero, extension)
    ensures ChunksThen(Encode(c) + s, [c] + cs, zero, extension)
  {
    hide SizeOk, Hex, Wrap, SizeLine, Encode, ChunkOk;
    assert ([c] + cs)[1..] == cs;
    assert EncodeAll([c] + cs) + SizeLine(zero, extension) == Encode(c) + (EncodeAll(cs) + SizeLine(zero, extension));
  }

  // ----- Exactly these -----

  /** Some of the bytes take the parser to the lines after the last chunk. */
  predicate ReachesTrailers(q: Parser, s: string) { exists n :: 0 <= n <= |s| && Ends(q, s[..n]) }

  lemma ChunksReach(q: Parser, cs: seq<Chunk>, zero: string, extension: string)
    requires Inv(q) && q.state.ChunkSizeStart? && forall i :: 0 <= i < |cs| ==> ChunkOk(cs[i])
    requires SizeOk(zero, extension) && Wrap(Hex(zero)) == 0
    ensures Ends(q, EncodeAll(cs) + SizeLine(zero, extension))
  {
    hide Feed, Inv, SizeOk, Hex, Wrap, SizeLine, ChunkOk, EncodeAll, Collect;
    ChunksRun(q, NO_MESSAGES, cs);
    var q1 := Feed(q, EncodeAll(cs)).q;
    SizeLineRun(q1, zero, extension);
    FeedAppend(q, EncodeAll(cs), SizeLine(zero, extension));
  }

  lemma ChunksBegin(q: Parser)
    requires Inv(q) && q.state.ChunkSizeStart?
    ensures InChunk(q) && q.nread == 0
  {
  }

  /** The chunked bodies that are accepted, exactly: a run from the first size gets to the
      trailers when the buffer begins with chunks, each with a size line within the header limit
      and as much data as the size says modulo 2^64, and a size line that says zero. */
  lemma ChunksAccepted(q: Parser, s: string)
    requires Inv(q) && q.state.ChunkSizeStart?
    ensures ReachesTrailers(q, s) <==> exists cs, zero, extension :: ChunksThen(s, cs, zero, extension)
  {
    hide Feed, Inv, Ends, EncodeAll, SizeOk, SizeLine, Hex, IsHex, ChunkOk;
    ChunksBegin(q);
    if ReachesTrailers(q, s) {
      var n :| 0 <= n <= |s| && Ends(q, s[..n]);
      var cs, zero, extension := ScanChunks(q, s[..n]);
      assert ChunksThen(s, cs, zero, extension);
    }
    if cs, zero, extension :| ChunksThen(s, cs, zero, extension) {
      var text := EncodeAll(cs) + SizeLine(zero, extension);
      ChunksReach(q, cs, zero, extension);
      assert s[..|text|] == text;
    }
  }
}
