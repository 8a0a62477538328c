/** Method words: what the byte-by-byte matcher with its mid-word switches recognises. */
module Methods {
  import opened Syntax
  import opened Machine
  import opened Messages
  import opened Split
  import opened Marks
  import opened Frames

  predicate Prefix(w: string, literal: string) { |w| <= |literal| && w == literal[..|w|] }

  predicate NoNul(w: string) { forall i :: 0 <= i < |w| ==> w[i] != '\0' }

  /** The method that the first bytes of a word point at. */
  function Family(w: string): Method
    requires w != []
  {
    match w[0]
    case 'C' => if |w| > 1 && w[1] == 'H' then CHECKOUT else if |w| > 2 && w[2] == 'P' then COPY else CONNECT
    case 'M' =>
      if |w| > 1 && w[1] == 'O' then MOVE
      else if |w| > 1 && w[1] == 'E' then MERGE
      else if |w| > 1 && w[1] == '-' then MSEARCH
      else if |w| > 2 && w[2] == 'A' then MKACTIVITY
      else MKCOL
    case 'P' =>
      if |w| > 1 && w[1] == 'R' then if |w| > 4 && w[4] == 'P' then PROPPATCH else PROPFIND
      else if |w| > 1 && w[1] == 'U' then PUT
      else POST
    case 'U' => if |w| > 2 && w[2] == 'S' then UNSUBSCRIBE else UNLOCK
    case 'G' => GET
    case 'H' => HEAD
    case 'L' => LOCK
    case 'N' => NOTIFY
    case 'O' => OPTIONS
    case 'R' => REPORT
    case 'S' => SUBSCRIBE
    case 'T' => TRACE
    case _ => DELETE
  }

  predicate IsFirst(ch: char) { ch in "CDGHLMNOPRSTU" }

  /** The words after which the parser is still reading the method: `CONNECT` and `MKCOL`
      are only counted, `COPY` and `MKACTIVITY` are compared from their third byte on. */
  predicate Readable(w: string) {
    && w != [] && IsFirst(w[0])
    && match Family(w)
       case CONNECT => |w| <= 8 && NoNul(w) && (|w| == 8 ==> w[7] != ' ')
       case MKCOL => |w| <= 6 && NoNul(w) && (|w| == 6 ==> w[5] != ' ')
       case COPY => NoNul(w) && Prefix(w[2..], "PY")
       case MKACTIVITY => NoNul(w) && Prefix(w[2..], "ACTIVITY")
       case m => Prefix(w, MethodString(m))
  }

  /** The parser has read the word `w`. */
  predicate Tracks(q: Parser, w: string) {
    q.state.ReqMethod? && Readable(w) && q.meth == Family(w) && q.index == |w|
  }

  /** The byte that ends the word. */
  predicate EndsWord(w: string, ch: char)
    requires w != []
  {
    ch == ' ' && |w| == |MethodString(Family(w))|
  }

  // ----- One byte -----

  lemma PrefixSnoc(w: string, ch: char, literal: string)
    ensures Prefix(w + [ch], literal) <==> Prefix(w, literal) && |w| < |literal| && ch == literal[|w|]
  {
    if Prefix(w + [ch], literal) {
      assert w == (w + [ch])[..|w|] == literal[..|w|];
      assert ch == (w + [ch])[|w|];
    }
    if Prefix(w, literal) && |w| < |literal| && ch == literal[|w|] {
      assert literal[..|w| + 1] == literal[..|w|] + [literal[|w|]];
    }
  }

  predicate Moves(q: Parser, w: string, ch: char, o: Outcome) {
    if Readable(w + [ch]) then o.Next? && Tracks(o.q, w + [ch]) && o.signals == [] else o.Error? || o.Stray?
  }

  lemma Letters(m: Method)
    ensures 3 <= |MethodString(m)| <= 11
    ensures forall i :: 0 <= i < |MethodString(m)| ==> MethodString(m)[i] != '\0' && MethodString(m)[i] != ' '
  {
  }

  predicate OneMethod(ch: char) { ch in "DGHLNORST" }

  /** The matcher on a method that no mid-word switch leaves. */
  lemma PlainByte(q: Parser, ch: char)
    requires !q.meth.CONNECT? && !q.meth.MKCOL? && q.index <= |MethodString(q.meth)|
    requires !(q.meth.POST? && q.index == 1) && !(q.meth.UNLOCK? && q.index == 2) && !(q.meth.PROPFIND? && q.index == 4)
    requires !(ch == ' ' && q.index == |MethodString(q.meth)|)
    ensures var o, literal := MethodByte(q, ch), MethodString(q.meth);
            if q.index < |literal| && ch == literal[q.index] then o == Next(q.(index := q.index + 1), []) else o == Error
  {
    hide MethodString;
    Letters(q.meth);
  }

  lemma FamilyStays(w: string, ch: char)
    requires w != []
    requires OneMethod(w[0])
    ensures Family(w + [ch]) == Family(w)
    ensures !Family(w).CONNECT? && !Family(w).MKCOL? && !Family(w).POST? && !Family(w).UNLOCK? && !Family(w).PROPFIND?
            && !Family(w).COPY? && !Family(w).MKACTIVITY?
  {
  }

  lemma PlainMoves(q: Parser, w: string, ch: char)
    requires Tracks(q, w) && OneMethod(w[0]) && !EndsWord(w, ch)
    ensures Moves(q, w, ch, MethodByte(q, ch))
  {
    hide Prefix, MethodString, MethodByte, Family;
    FamilyStays(w, ch);
    PrefixSnoc(w, ch, MethodString(q.meth));
    ReadableLength(w);
    PlainByte(q, ch);
  }

  lemma ReadableLength(w: string)
    requires Readable(w) && !Family(w).CONNECT? && !Family(w).MKCOL? && !Family(w).COPY? && !Family(w).MKACTIVITY?
    ensures |w| <= |MethodString(Family(w))|
  {
    hide MethodString, Family;
  }

  /** A byte that stays within one method. */
  lemma SameFamily(q: Parser, w: string, ch: char)
    requires Tracks(q, w) && !EndsWord(w, ch)
    requires Family(w + [ch]) == Family(w)
    requires !q.meth.CONNECT? && !q.meth.MKCOL? && !q.meth.COPY? && !q.meth.MKACTIVITY?
    requires !(q.meth.POST? && |w| == 1) && !(q.meth.UNLOCK? && |w| == 2) && !(q.meth.PROPFIND? && |w| == 4)
    ensures Moves(q, w, ch, MethodByte(q, ch))
  {
    hide Prefix, MethodString, MethodByte, Family;
    PrefixSnoc(w, ch, MethodString(q.meth));
    ReadableLength(w);
    PlainByte(q, ch);
  }

  /** A byte at a place where the C code may switch to another method: `m` is the method
      of the longer word. */
  lemma Switches(q: Parser, w: string, ch: char, m: Method)
    requires Tracks(q, w) && Family(w + [ch]) == m
    requires !m.CONNECT? && !m.MKCOL? && !m.COPY? && !m.MKACTIVITY?
    requires Prefix(w, MethodString(m)) && |w| < |MethodString(m)|
    requires MethodByte(q, ch) ==
             if ch == MethodString(m)[|w|] then Next(q.(index := |w| + 1, meth := m), []) else Error
    ensures Moves(q, w, ch, MethodByte(q, ch))
  {
    hide Prefix, MethodString, MethodByte, Family;
    PrefixSnoc(w, ch, MethodString(m));
  }

  // ----- Words in P and in U -----

  lemma PMoves(q: Parser, w: string, ch: char)
    requires Tracks(q, w) && w[0] == 'P' && !EndsWord(w, ch)
    ensures Moves(q, w, ch, MethodByte(q, ch))
  {
    hide MethodByte, MethodString, Moves;
    if |w| == 1 {
      assert w == "P";
      SecondOfP(q, ch);
    } else if |w| == 4 && q.meth.PROPFIND? {
      FifthOfProp(q, w, ch);
    } else {
      SameFamily(q, w, ch);
    }
  }

  lemma SecondOfP(q: Parser, ch: char)
    requires Tracks(q, "P")
    ensures Moves(q, "P", ch, MethodByte(q, ch))
  {
    hide Moves;
    assert "P" + [ch] == ['P', ch];
    var m := Family(['P', ch]);
    assert MethodString(m)[..1] == "P";
    Switches(q, "P", ch, m);
  }

  lemma FifthOfProp(q: Parser, w: string, ch: char)
    requires Tracks(q, w) && |w| == 4 && q.meth.PROPFIND?
    ensures Moves(q, w, ch, MethodByte(q, ch))
  {
    hide Moves;
    assert w == "PROPFIND"[..4];
    var m := Family(w + [ch]);
    assert MethodString(m)[..4] == "PROPFIND"[..4];
    Switches(q, w, ch, m);
  }

  lemma UMoves(q: Parser, w: string, ch: char)
    requires Tracks(q, w) && w[0] == 'U' && !EndsWord(w, ch)
    ensures Moves(q, w, ch, MethodByte(q, ch))
  {
    hide MethodByte, MethodString, Moves;
    if |w| == 2 { ThirdOfUn(q, w, ch); } else { SameFamily(q, w, ch); }
  }

  lemma ThirdOfUn(q: Parser, w: string, ch: char)
    requires Tracks(q, w) && |w| == 2 && w[0] == 'U'
    ensures Moves(q, w, ch, MethodByte(q, ch))
  {
    hide Moves;
    assert w == "UNLOCK"[..2];
    var m := Family(w + [ch]);
    assert MethodString(m)[..2] == "UNLOCK"[..2];
    Switches(q, w, ch, m);
  }

  // ----- Words in C and in M: the two methods that are only counted -----

  /** The method a counted word turns into with one more byte. */
  function CountedAs(m: Method, index: nat, ch: char): Method {
    if m.CONNECT? then
      if index == 1 && ch == 'H' then CHECKOUT else if index == 2 && ch == 'P' then COPY else m
    else
      if index == 1 && ch == 'O' then MOVE
      else if index == 1 && ch == 'E' then MERGE
      else if index == 1 && ch == '-' then MSEARCH
      else if index == 2 && ch == 'A' then MKACTIVITY
      else m
  }

  lemma CountedByte(q: Parser, ch: char)
    requires q.meth.CONNECT? || q.meth.MKCOL?
    requires !(ch == ' ' && q.index == |MethodString(q.meth)|)
    ensures MethodByte(q, ch) ==
            if ch == '\0' then Error
            else if q.index > |MethodString(q.meth)| then Stray
            else Next(q.(index := q.index + 1, meth := CountedAs(q.meth, q.index, ch)), [])
  {
  }

  lemma CountedFamily(w: string, ch: char)
    requires w != [] && (w[0] == 'C' || w[0] == 'M') && (Family(w).CONNECT? || Family(w).MKCOL?)
    ensures Family(w + [ch]) == CountedAs(Family(w), |w|, ch)
    ensures Family(w).CONNECT? <==> w[0] == 'C'
  {
  }

  lemma NoNulSnoc(w: string, ch: char)
    ensures NoNul(w + [ch]) <==> NoNul(w) && ch != '\0'
  {
    if NoNul(w + [ch]) {
      assert (w + [ch])[|w|] == ch;
      forall i | 0 <= i < |w| ensures w[i] != '\0' { assert (w + [ch])[i] == w[i]; }
    }
  }

  /** Which longer words are readable, when the family is one that is only counted. */
  lemma CountedReadable(w: string, ch: char)
    requires Readable(w) && (Family(w).CONNECT? || Family(w).MKCOL?) && (w[0] == 'C' || w[0] == 'M') && !EndsWord(w, ch)
    ensures Readable(w + [ch]) <==> ch != '\0' && |w| <= |MethodString(Family(w))|
  {
    hide Prefix, NoNul, Family;
    CountedFamily(w, ch);
    NoNulSnoc(w, ch);
    var v := w + [ch];
    assert v[0] == w[0];
    if |w| == 1 { assert w == [w[0]] && v == [w[0], ch]; SecondLetter(w[0], ch); }
    if |w| == 2 && CountedAs(Family(w), 2, ch) != Family(w) { ThirdLetter(v); }
  }

  lemma SecondLetter(c: char, ch: char)
    ensures c == 'C' && ch == 'H' ==> Prefix([c, ch], "CHECKOUT")
    ensures c == 'M' && ch == 'O' ==> Prefix([c, ch], "MOVE")
    ensures c == 'M' && ch == 'E' ==> Prefix([c, ch], "MERGE")
    ensures c == 'M' && ch == '-' ==> Prefix([c, ch], "M-SEARCH")
  {
  }

  lemma ThirdLetter(v: string)
    requires |v| == 3
    ensures v[2] == 'P' ==> Prefix(v[2..], "PY")
    ensures v[2] == 'A' ==> Prefix(v[2..], "ACTIVITY")
  {
  }

  lemma CountedMoves(q: Parser, w: string, ch: char)
    requires Tracks(q, w) && !EndsWord(w, ch) && (w[0] == 'C' || w[0] == 'M') && (q.meth.CONNECT? || q.meth.MKCOL?)
    ensures Moves(q, w, ch, MethodByte(q, ch))
  {
    hide Prefix, NoNul, MethodByte, Readable, Family;
    FirstLetters(w);
    CountedByte(q, ch);
    CountedFamily(w, ch);
    CountedReadable(w, ch);
  }

  /** `COPY` and `MKACTIVITY` are compared with the end of their string only. */
  lemma LateMoves(q: Parser, w: string, ch: char)
    requires Tracks(q, w) && !EndsWord(w, ch) && (q.meth.COPY? || q.meth.MKACTIVITY?)
    ensures Moves(q, w, ch, MethodByte(q, ch))
  {
    hide Prefix, NoNul, MethodByte;
    LateFamily(w, ch);
    var tail := if q.meth.COPY? then "PY" else "ACTIVITY";
    assert (w + [ch])[2..] == w[2..] + [ch];
    PrefixSnoc(w[2..], ch, tail);
    PrefixLength(w[2..], tail);
    NoNulSnoc(w, ch);
    Tails();
    PlainByte(q, ch);
  }

  lemma LateFamily(w: string, ch: char)
    requires w != [] && (Family(w).COPY? || Family(w).MKACTIVITY?) && IsFirst(w[0])
    ensures Family(w + [ch]) == Family(w) && |w| >= 3
  {
  }

  lemma PrefixLength(w: string, literal: string)
    requires Prefix(w, literal)
    ensures |w| <= |literal|
  {
  }

  lemma Tails()
    ensures |MethodString(COPY)| == 4 && |MethodString(MKACTIVITY)| == 10
    ensures MethodString(COPY)[2..] == "PY" && MethodString(MKACTIVITY)[2..] == "ACTIVITY"
    ensures forall i :: 2 <= i < 4 ==> MethodString(COPY)[i] == "PY"[i - 2]
    ensures forall i :: 2 <= i < 10 ==> MethodString(MKACTIVITY)[i] == "ACTIVITY"[i - 2]
  {
  }

  lemma WordMoves(q: Parser, w: string, ch: char)
    requires Tracks(q, w) && !EndsWord(w, ch)
    ensures Moves(q, w, ch, MethodByte(q, ch))
  {
    hide MethodByte, MethodString, Moves, Readable, Prefix;
    FirstLetters(w);
    if OneMethod(w[0]) { PlainMoves(q, w, ch); }
    else if w[0] == 'P' { PMoves(q, w, ch); }
    else if w[0] == 'U' { UMoves(q, w, ch); }
    else if q.meth.CONNECT? || q.meth.MKCOL? { CountedMoves(q, w, ch); }
    else if q.meth.COPY? || q.meth.MKACTIVITY? { LateMoves(q, w, ch); }
    else { SameFamily(q, w, ch); }
  }

  lemma FirstLetters(w: string)
    requires Readable(w)
    ensures w != []
    ensures OneMethod(w[0]) || w[0] == 'P' || w[0] == 'U' || w[0] == 'C' || w[0] == 'M'
  {
  }

  // ----- Whole words -----

  lemma {:induction false} PrefixReadable(w: string, ch: char)
    requires w != [] && Readable(w + [ch])
    ensures Readable(w) && !EndsWord(w, ch)
  {
    hide MethodString, Prefix, Readable;
    assert (w + [ch])[0] == w[0];
    FirstLetters(w + [ch]);
    if w[0] == 'C' || w[0] == 'M' { CountedShorter(w, ch); }
    else if w[0] == 'P' { PShorter(w, ch); }
    else if w[0] == 'U' { UShorter(w, ch); }
    else { PlainShorter(w, ch); }
  }

  lemma PlainShorter(w: string, ch: char)
    requires w != [] && Readable(w + [ch]) && OneMethod(w[0])
    ensures Readable(w) && !EndsWord(w, ch)
  {
    hide Prefix, MethodString, Family;
    FamilyStays(w, ch);
    PrefixSnoc(w, ch, MethodString(Family(w)));
    Letters(Family(w));
  }

  lemma PShorter(w: string, ch: char)
    requires w != [] && Readable(w + [ch]) && w[0] == 'P'
    ensures Readable(w) && !EndsWord(w, ch)
  {
    hide Prefix, MethodString;
    var m := Family(w + [ch]);
    PrefixSnoc(w, ch, MethodString(m));
    Letters(m);
    Letters(Family(w));
    if |w| == 1 {
      assert w == "P";
      PrefixP();
    } else if |w| == 4 && m.PROPPATCH? {
      PrefixProp(w);
    } else {
      assert Family(w) == m;
    }
  }

  lemma PrefixP()
    ensures Prefix("P", MethodString(POST))
  {
  }

  lemma PrefixProp(w: string)
    requires |w| == 4 && Prefix(w, MethodString(PROPPATCH))
    ensures Prefix(w, MethodString(PROPFIND)) && Family(w).PROPFIND? && |MethodString(PROPFIND)| == 8
  {
    assert MethodString(PROPPATCH)[..4] == MethodString(PROPFIND)[..4];
  }

  lemma UShorter(w: string, ch: char)
    requires w != [] && Readable(w + [ch]) && w[0] == 'U'
    ensures Readable(w) && !EndsWord(w, ch)
  {
    hide Prefix, MethodString;
    var m := Family(w + [ch]);
    PrefixSnoc(w, ch, MethodString(m));
    Letters(m);
    Letters(Family(w));
    if |w| == 2 { PrefixUn(w, m); } else { assert Family(w) == m; }
  }

  lemma PrefixUn(w: string, m: Method)
    requires |w| == 2 && Prefix(w, MethodString(m)) && (m.UNLOCK? || m.UNSUBSCRIBE?)
    ensures Prefix(w, MethodString(UNLOCK))
  {
    assert MethodString(UNLOCK)[..2] == MethodString(UNSUBSCRIBE)[..2];
  }

  lemma NoNulOne(ch: char)
    requires ch != '\0'
    ensures NoNul([ch])
  {
  }

  lemma LettersOfTails(i: nat)
    ensures i < 2 ==> "PY"[i] != ' '
    ensures i < 8 ==> "ACTIVITY"[i] != ' '
  {
  }

  /** A longer word in C or in M is readable only if the shorter one is. */
  lemma CountedShorter(w: string, ch: char)
    requires w != [] && Readable(w + [ch]) && (w[0] == 'C' || w[0] == 'M')
    ensures Readable(w) && !EndsWord(w, ch)
  {
    hide Prefix, NoNul;
    var v := w + [ch];
    var m := Family(v);
    NoNulSnoc(w, ch);
    Letters(m);
    PrefixSnoc(w, ch, MethodString(m));
    if |w| == 1 {
      assert w == [w[0]];
      NoNulOne(w[0]);
    } else if m.COPY? || m.MKACTIVITY? {
      assert v[2..] == w[2..] + [ch];
      PrefixSnoc(w[2..], ch, "PY");
      PrefixSnoc(w[2..], ch, "ACTIVITY");
      LettersOfTails(|w| - 2);
    }
  }

  // ----- Whole words -----

  /** After the bytes `w` the parser is in the method. */
  predicate Reads(q: Parser, w: string) {
    var r := FreeFeed(q, w);
    r.Consumed? && r.q.state.ReqMethod?
  }

  /** The parser is in the method after each byte of `w`. */
  predicate InMethod(q: Parser, w: string) {
    forall k :: 0 < k <= |w| ==> Reads(q, w[..k])
  }

  predicate TracksRun(q: Parser, w: string) {
    var r := FreeFeed(q, w);
    r.Consumed? && Tracks(r.q, w)
  }

  lemma AssignIs(q: Parser, ch: char)
    ensures AssignMethod(q, ch) ==
            if IsFirst(ch) then Next(q.(index := 1, state := ReqMethod, meth := Family([ch])), [MessageBegin]) else Error
  {
  }

  lemma FirstLetterByte(q: Parser, ch: char)
    requires q.state.StartReq?
    ensures var o := FreeStep(q, ch);
            if IsFirst(ch) then o.Next? && Tracks(o.q, [ch]) else !(o.Next? && o.q.state.ReqMethod?)
  {
    hide Readable, AssignMethod, Family, IsFirst;
    FirstWord(ch);
    FirstIsUpper(ch);
    AssignIs(BeginMessage(Count(q)), ch);
    assert FreeStep(q, ch) == StartByte(Count(q), ch);
  }

  lemma FirstIsUpper(ch: char)
    ensures IsFirst(ch) ==> IsUpper(ch)
  {
  }

  lemma FirstWord(ch: char)
    ensures IsFirst(ch) <==> Readable([ch])
  {
    if IsFirst(ch) {
      Letters(Family([ch]));
      NoNulOne(ch);
      assert MethodString(Family([ch]))[..1] == [MethodString(Family([ch]))[0]];
    }
  }

  lemma MethodStep(q: Parser, ch: char)
    requires q.state.ReqMethod?
    ensures FreeStep(q, ch) == MethodByte(Count(q), ch) && Count(q) == q.(nread := q.nread + 1)
  {
    hide MethodByte;
  }

  lemma MethodSilent(q: Parser, ch: char)
    requires q.state.ReqMethod?
    ensures var o := FreeStep(q, ch); o.Next? ==> OneByte(o, ch) == Consumed(o.q, [])
  {
    hide FreeStep, MethodByte;
    MethodStep(q, ch);
    MethodFrame(Count(q), ch);
  }

  lemma WordByte(q: Parser, w: string, ch: char)
    requires Tracks(q, w) && w != []
    ensures var o := FreeStep(q, ch);
            if EndsWord(w, ch) then o.Next? && o.q.state.ReqSpacesBeforeUrl? && o.q.meth == Family(w)
            else if Readable(w + [ch]) then o.Next? && Tracks(o.q, w + [ch])
            else o.Error? || o.Stray?
  {
    hide Readable, Family, MethodString, MethodByte;
    var c := Count(q);
    MethodStep(q, ch);
    if EndsWord(w, ch) { EndByte(c, ch); } else { WordMoves(c, w, ch); }
  }

  lemma EndByte(q: Parser, ch: char)
    requires ch == ' ' && q.index == |MethodString(q.meth)|
    ensures MethodByte(q, ch) == Next(q.(index := q.index + 1, state := ReqSpacesBeforeUrl), [])
  {
    hide MethodString;
  }

  /** The parser stays in the method exactly on the readable words. */
  lemma {:induction false} MethodRun(q: Parser, w: string)
    requires q.state.StartReq? && w != []
    ensures InMethod(q, w) <==> Readable(w)
    ensures InMethod(q, w) ==> TracksRun(q, w)
    decreases |w|
  {
    hide FreeFeed, FreeStep, Readable, Tracks, InMethod;
    var t, ch := w[..|w| - 1], w[|w| - 1];
    assert w == t + [ch];
    FreeFeedSnoc(q, t, ch);
    if t == [] {
      FreeFeedEmpty(q);
      FirstLetterByte(q, ch);
      FirstWord(ch);
      assert [] + [ch] == [ch];
      InMethodOne(q, ch);
      var o := FreeStep(q, ch);
      if o.Next? { TracksState(o.q, w); }
    } else {
      MethodRun(q, t);
      InMethodSnoc(q, t, ch);
      if Readable(w) { PrefixReadable(t, ch); }
      if InMethod(q, t) {
        var q1 := FreeFeed(q, t).q;
        WordByte(q1, t, ch);
        var o := FreeStep(q1, ch);
        if o.Next? { TracksState(o.q, w); }
      }
    }
  }

  lemma TracksState(q: Parser, w: string)
    ensures Tracks(q, w) ==> q.state.ReqMethod? && Readable(w)
  {
  }

  lemma InMethodOne(q: Parser, ch: char)
    ensures InMethod(q, [ch]) <==> Reads(q, [ch])
  {
    hide Reads;
    assert [ch][..1] == [ch];
  }

  lemma InMethodSnoc(q: Parser, t: string, ch: char)
    ensures InMethod(q, t + [ch]) <==> InMethod(q, t) && Reads(q, t + [ch])
  {
    hide Reads;
    var w := t + [ch];
    assert w[..|w|] == w;
    assert forall k :: 0 < k <= |t| ==> w[..k] == t[..k];
    if InMethod(q, w) {
      forall k | 0 < k <= |t| ensures Reads(q, t[..k]) { assert Reads(q, w[..k]); }
      assert Reads(q, w[..|w|]);
    }
    if InMethod(q, t) && Reads(q, w) {
      forall k | 0 < k <= |w| ensures Reads(q, w[..k]) {
        if k <= |t| { assert Reads(q, t[..k]); }
      }
    }
  }

  // ----- What is recognised -----

  /** The parser reads `w`, then a space, and goes on to the target with method `m`. */
  predicate Recognised(q: Parser, w: string, m: Method) {
    && InMethod(q, w)
    && var r := FreeFeed(q, w + [' ']);
       r.Consumed? && r.q.state.ReqSpacesBeforeUrl? && r.q.meth == m
  }

  /** The methods as a client writes them. */
  function Spelt(m: Method): string {
    match m
    case DELETE => "DELETE"
    case GET => "GET"
    case HEAD => "HEAD"
    case POST => "POST"
    case PUT => "PUT"
    case CONNECT => "CONNECT"
    case OPTIONS => "OPTIONS"
    case TRACE => "TRACE"
    case COPY => "COPY"
    case LOCK => "LOCK"
    case MKCOL => "MKCOL"
    case MOVE => "MOVE"
    case PROPFIND => "PROPFIND"
    case PROPPATCH => "PROPPATCH"
    case UNLOCK => "UNLOCK"
    case REPORT => "REPORT"
    case MKACTIVITY => "MKACTIVITY"
    case CHECKOUT => "CHECKOUT"
    case MERGE => "MERGE"
    case MSEARCH => "M-SEARCH"
    case NOTIFY => "NOTIFY"
    case SUBSCRIBE => "SUBSCRIBE"
    case UNSUBSCRIBE => "UNSUBSCRIBE"
  }

  lemma SpeltIs(m: Method)
    ensures Spelt(m) == MethodString(m)
  {
  }

  /** The words recognised as `m`: its name, and for four methods more. */
  predicate Word(w: string, m: Method) {
    match m
    case CONNECT => |w| == 7 && NoNul(w) && w[0] == 'C' && w[1] != 'H' && w[2] != 'P'
    case COPY => |w| == 4 && NoNul(w) && w[0] == 'C' && w[1] != 'H' && w[2..] == "PY"
    case MKCOL => |w| == 5 && NoNul(w) && w[0] == 'M' && w[1] != 'O' && w[1] != 'E' && w[1] != '-' && w[2] != 'A'
    case MKACTIVITY => |w| == 10 && NoNul(w) && w[0] == 'M' && w[1] != 'O' && w[1] != 'E' && w[1] != '-' && w[2..] == "ACTIVITY"
    case _ => w == Spelt(m)
  }

  predicate Comparing(m: Method) { !m.CONNECT? && !m.COPY? && !m.MKCOL? && !m.MKACTIVITY? }

  /** Each method string points at its own method: by first letters. */
  lemma PlainFamily(m: Method)
    requires OneMethod(MethodString(m)[0])
    ensures Family(MethodString(m)) == m
  {
  }

  lemma FamilyInCM(m: Method)
    requires MethodString(m)[0] == 'C' || MethodString(m)[0] == 'M'
    ensures Family(MethodString(m)) == m
  {
  }

  lemma FamilyInPU(m: Method)
    requires MethodString(m)[0] == 'P' || MethodString(m)[0] == 'U'
    ensures Family(MethodString(m)) == m
  {
  }

  lemma InitialOf(m: Method)
    ensures var ch := MethodString(m)[0];
            IsFirst(ch) && (OneMethod(ch) || ch == 'C' || ch == 'M' || ch == 'P' || ch == 'U')
  {
  }

  lemma OwnFamily(m: Method)
    ensures Family(MethodString(m)) == m && IsFirst(MethodString(m)[0])
  {
    hide MethodString, Family;
    Letters(m);
    InitialOf(m);
    var ch := MethodString(m)[0];
    if OneMethod(ch) { PlainFamily(m); } else if ch == 'C' || ch == 'M' { FamilyInCM(m); } else { FamilyInPU(m); }
  }

  lemma ComparedWord(w: string, m: Method)
    requires Comparing(m)
    ensures Word(w, m) <==> Readable(w) && Family(w) == m && |w| == |MethodString(m)|
  {
    hide MethodString, Spelt, Family;
    OwnFamily(m);
    SpeltIs(m);
    Letters(m);
    assert MethodString(m)[..|MethodString(m)|] == MethodString(m);
  }

  lemma ConnectWord(w: string)
    ensures Word(w, CONNECT) <==> Readable(w) && Family(w) == CONNECT && |w| == 7
  {
    hide NoNul, Prefix;
  }

  lemma MkcolWord(w: string)
    ensures Word(w, MKCOL) <==> Readable(w) && Family(w) == MKCOL && |w| == 5
  {
    hide NoNul, Prefix;
  }

  lemma WholeTail(w: string, tail: string)
    requires |w| == |tail| + 2
    ensures Prefix(w[2..], tail) <==> w[2..] == tail
  {
    assert tail[..|tail|] == tail;
  }

  lemma CopyWord(w: string)
    ensures Word(w, COPY) <==> Readable(w) && Family(w) == COPY && |w| == 4
  {
    hide NoNul, Prefix;
    if |w| == 4 { WholeTail(w, "PY"); }
  }

  lemma MkactivityWord(w: string)
    ensures Word(w, MKACTIVITY) <==> Readable(w) && Family(w) == MKACTIVITY && |w| == 10
  {
    hide NoNul, Prefix;
    if |w| == 10 { WholeTail(w, "ACTIVITY"); }
  }

  lemma CountedWord(w: string, m: Method)
    requires !Comparing(m)
    ensures Word(w, m) <==> Readable(w) && Family(w) == m && |w| == |MethodString(m)|
  {
    hide Word, Readable, Family;
    match m
    case CONNECT => ConnectWord(w);
    case MKCOL => MkcolWord(w);
    case COPY => CopyWord(w);
    case MKACTIVITY => MkactivityWord(w);
  }

  lemma WordIs(w: string, m: Method)
    ensures Word(w, m) <==> Readable(w) && Family(w) == m && |w| == |MethodString(m)|
  {
    hide Word, Readable, Family, MethodString;
    if Comparing(m) { ComparedWord(w, m); } else { CountedWord(w, m); }
  }

  /** Method recognition, exactly: the words that are read as method `m`. */
  lemma MethodRecognised(q: Parser, w: string, m: Method)
    requires q.state.StartReq? && w != []
    ensures Recognised(q, w, m) <==> Word(w, m)
  {
    hide FreeFeed, FreeStep, Readable, InMethod, Word, Family, MethodString, Tracks;
    MethodRun(q, w);
    WordIs(w, m);
    FreeFeedSnoc(q, w, ' ');
    if InMethod(q, w) {
      var q1 := FreeFeed(q, w).q;
      WordByte(q1, w, ' ');
      var o := FreeStep(q1, ' ');
      if o.Next? { TracksState(o.q, w + [' ']); }
    }
  }

  /** Every name of a method is recognised as it. */
  lemma EveryMethod(q: Parser, m: Method)
    requires q.state.StartReq?
    ensures Recognised(q, Spelt(m), m)
  {
    hide Recognised, Word, MethodString, Spelt, Readable, Family;
    SpeltIs(m);
    Letters(m);
    StringIsWord(m);
    MethodRecognised(q, Spelt(m), m);
  }

  lemma StringIsWord(m: Method)
    ensures Word(Spelt(m), m)
  {
    hide NoNul;
    SpeltIs(m);
    Letters(m);
    NoNulLetters(m);
    assert "COPY"[2..] == "PY" && "MKACTIVITY"[2..] == "ACTIVITY";
  }

  lemma NoNulLetters(m: Method)
    ensures NoNul(MethodString(m))
  {
    hide MethodString;
    Letters(m);
  }

  /** Soundness: for a first letter other than C or M the recognised method is the word;
      for C and M it is exactly when the word is a method string at all. */
  lemma MethodSound(q: Parser, w: string, m: Method)
    requires q.state.StartReq? && w != [] && Recognised(q, w, m)
    ensures w[0] != 'C' && w[0] != 'M' ==> w == Spelt(m)
    ensures w == Spelt(m) <==> exists k :: w == Spelt(k)
  {
    hide Recognised, NoNul;
    MethodRecognised(q, w, m);
    if k :| w == Spelt(k) {
      OneFamily(w, m, k);
    }
  }

  lemma OneFamily(w: string, m: Method, k: Method)
    requires Word(w, m) && w == Spelt(k)
    ensures m == k
  {
    hide MethodString, Spelt, Readable, Family, Word;
    SpeltIs(k);
    WordIs(w, m);
    OwnFamily(k);
  }

  /** Words in C and in M that are no methods are recognised: each of the four is. */
  lemma MisreadWords(q: Parser)
    requires q.state.StartReq?
    ensures Recognised(q, "CXPY", COPY)
    ensures Recognised(q, "CAAAAAA", CONNECT)
    ensures Recognised(q, "MXXXX", MKCOL)
    ensures Recognised(q, "MXACTIVITY", MKACTIVITY)
  {
    hide Recognised;
    assert "CXPY"[2..] == "PY" && "MXACTIVITY"[2..] == "ACTIVITY";
    MethodRecognised(q, "CXPY", COPY);
    MethodRecognised(q, "CAAAAAA", CONNECT);
    MethodRecognised(q, "MXXXX", MKCOL);
    MethodRecognised(q, "MXACTIVITY", MKACTIVITY);
  }

  lemma StrayByte(q: Parser, w: string, ch: char)
    requires Tracks(q, w) && w != []
    ensures MethodByte(q, ch).Stray? <==>
              ch != '\0' && ((Family(w).CONNECT? && |w| == 8) || (Family(w).MKCOL? && |w| == 6))
  {
    hide Prefix, NoNul, Family;
    if q.meth.CONNECT? || q.meth.MKCOL? {
      if !EndsWord(w, ch) { CountedByte(q, ch); }
    } else {
      NoStray(q, w, ch);
    }
  }

  /** A counted word that is one byte longer than the string it is counted against. */
  predicate Overlong(w: string) {
    || (|w| == 8 && w[0] == 'C' && w[1] != 'H' && w[2] != 'P')
    || (|w| == 6 && w[0] == 'M' && w[1] != 'O' && w[1] != 'E' && w[1] != '-' && w[2] != 'A')
  }

  lemma OverlongFamily(w: string)
    requires w != [] && IsFirst(w[0])
    ensures Overlong(w) <==> (Family(w).CONNECT? && |w| == 8) || (Family(w).MKCOL? && |w| == 6)
  {
  }

  /** In every run from a start state: when the parser is still in the method after `w`, the
      next byte makes it read outside its string exactly when `w` is overlong. */
  lemma StraysExactly(q: Parser, w: string, ch: char)
    requires q.state.StartReq? && w != [] && InMethod(q, w)
    ensures var r := FreeFeed(q, w + [ch]);
            (r.Stopped? && r.reason.UndefinedStep?) <==> ch != '\0' && Overlong(w)
  {
    hide FreeFeed, FreeStep, Readable, InMethod, Family, MethodString, MethodByte, Overlong, IsFirst;
    MethodRun(q, w);
    ReadableFirst(w);
    OverlongFamily(w);
    FreeFeedSnoc(q, w, ch);
    var q1 := FreeFeed(q, w).q;
    StrayByte(Count(q1), w, ch);
    MethodStep(q1, ch);
  }

  lemma ReadableFirst(w: string)
    requires Readable(w)
    ensures w != [] && IsFirst(w[0])
  {
    hide Family, Prefix, NoNul;
  }

  /** It happens: two words on which the matcher leaves its string. */
  lemma StrayWords(q: Parser)
    requires q.state.StartReq?
    ensures FreeFeed(q, "CAAAAAAAA").Stopped? && FreeFeed(q, "CAAAAAAAA").reason.UndefinedStep?
    ensures FreeFeed(q, "MXXXXXX").Stopped? && FreeFeed(q, "MXXXXXX").reason.UndefinedStep?
  {
    hide FreeFeed, InMethod;
    var w, v := "CAAAAAAA", "MXXXXX";
    assert NoNul(w) && NoNul(v);
    MethodRun(q, w);
    MethodRun(q, v);
    StraysExactly(q, w, 'A');
    StraysExactly(q, v, 'X');
    assert w + ['A'] == "CAAAAAAAA" && v + ['X'] == "MXXXXXX";
  }

  lemma NoStray(q: Parser, w: string, ch: char)
    requires Tracks(q, w) && !q.meth.CONNECT? && !q.meth.MKCOL?
    ensures !MethodByte(q, ch).Stray?
  {
    hide MethodString, Family, NoNul, Prefix;
    Tails();
    if q.meth.COPY? || q.meth.MKACTIVITY? {
      LateFamily(w, ch);
      PrefixLength(w[2..], if q.meth.COPY? then "PY" else "ACTIVITY");
    } else {
      ReadableLength(w);
    }
  }

  // ----- What the application is told of it -----

  /** The parser after the bytes `w` of a method. */
  function InWord(q: Parser, w: string): Parser
    requires w != []
  {
    BeginMessage(q).(state := ReqMethod, meth := Family(w), index := |w|, nread := q.nread + |w|)
  }

  lemma FirstStep(q: Parser, ch: char)
    requires q.state.StartReq? && IsFirst(ch)
    ensures FreeStep(q, ch) == Next(InWord(q, [ch]), [MessageBegin])
  {
    hide AssignMethod, Family, IsFirst;
    FirstIsUpper(ch);
    AssignIs(BeginMessage(Count(q)), ch);
    assert FreeStep(q, ch) == StartByte(Count(q), ch);
  }

  lemma WordState(q: Parser, w: string)
    requires w != []
    ensures InWord(q, w).state == ReqMethod
  {
  }

  lemma FirstOfMethod(q: Parser, ch: char)
    requires q.state.StartReq? && IsFirst(ch)
    ensures FreeFeed(q, [ch]) == Consumed(InWord(q, [ch]), [Begin])
  {
    hide FreeStep, SignalEvents, Open, InWord;
    FirstStep(q, ch);
    Notices(NO_MARKS, [], 0, SummaryOf(q));
    SameWithoutFlush([MessageBegin], NO_MARKS, [], 0, ch);
    WordState(q, [ch]);
    MethodQuiet();
    OpenEventsAre([], ch);
    assert [ch][1..] == [] && [Begin] + [] == [Begin];
  }

  lemma MethodQuiet()
    ensures Open(ReqMethod) == [] && Open(ReqSpacesBeforeUrl) == []
  {
  }

  /** More bytes that cause no event. */
  lemma QuietSnoc(q: Parser, s: string, q1: Parser, es: seq<Event>, ch: char, q2: Parser)
    requires FreeFeed(q, s) == Consumed(q1, es) && FreeStep(q1, ch) == Next(q2, []) && Open(q2.state) == []
    ensures FreeFeed(q, s + [ch]) == Consumed(q2, es)
  {
    hide FreeFeed, FreeStep, Open;
    FreeFeedSnoc(q, s, ch);
    OpenEventsAre([], ch);
    assert es + [] == es;
  }

  lemma {:induction false} WordRun(q: Parser, w: string)
    requires q.state.StartReq? && Readable(w)
    ensures FreeFeed(q, w) == Consumed(InWord(q, w), [Begin])
    decreases |w|
  {
    hide FreeFeed, FreeStep, Readable, Family, MethodByte;
    FirstLetters(w);
    var t, ch := w[..|w| - 1], w[|w| - 1];
    assert w == t + [ch];
    if t == [] {
      assert w == [ch];
      FirstWord(ch);
      FirstOfMethod(q, ch);
    } else {
      PrefixReadable(t, ch);
      WordRun(q, t);
      var q1 := InWord(q, t);
      WordMoves(Count(q1), t, ch);
      MethodFrame(Count(q1), ch);
      MethodStep(q1, ch);
      MethodQuiet();
      QuietSnoc(q, t, q1, [Begin], ch, InWord(q, w));
    }
  }

  /** A word that is read as a method, and the space after it: the message begins. */
  lemma MethodText(q: Parser, w: string, m: Method)
    requires q.state.StartReq? && Word(w, m)
    ensures var n := |w| + 1;
            FreeFeed(q, w + [' ']) ==
            Consumed(BeginMessage(q).(state := ReqSpacesBeforeUrl, meth := m, index := n, nread := q.nread + n), [Begin])
  {
    hide FreeFeed, FreeStep, Readable, Word, Family, MethodByte, MethodString;
    WordIs(w, m);
    ReadableFirst(w);
    WordRun(q, w);
    var q1 := InWord(q, w);
    MethodStep(q1, ' ');
    EndByte(q1.(nread := q1.nread + 1), ' ');
    MethodQuiet();
    QuietSnoc(q, w, q1, [Begin], ' ', q1.(nread := q1.nread + 1, index := q1.index + 1, state := ReqSpacesBeforeUrl));
  }
}
