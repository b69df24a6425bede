/** Conservation, size and UTF-8 properties of the text chunker, over all files and caps. */
module ChunkerProperties {
  import opened SeqUtil
  import opened Utf8
  import opened Whitespace
  import opened TextChunker

  // ---------- exact conservation of bytes ----------

  function Bytes(pieces: seq<Piece>): seq<byte> { ConcatMap(pieces, (p: Piece) => p.bytes) }

  /** What one line puts into the pieces: itself and a newline, or its head and copies of its tail. */
  function Contribution(line: seq<byte>, cap: nat, copies: nat): seq<byte> {
    if line == [] then []
    else if |line| > cap then line[..cap] + Repeat(line[cap..] + [NEWLINE], copies)
    else line + [NEWLINE]
  }

  function Contributions(lines: seq<seq<byte>>, cap: nat, copies: nat): seq<byte> {
    ConcatMap(lines, line => Contribution(line, cap, copies))
  }

  lemma BytesAppend(pieces: seq<Piece>, p: Piece)
    ensures Bytes(pieces + [p]) == Bytes(pieces) + p.bytes
  {
    ConcatMapAppend(pieces, p, (p: Piece) => p.bytes);
  }

  /** All bytes an accumulator holds. */
  function Held(acc: Acc): seq<byte> { Bytes(acc.pieces) + acc.buf }

  lemma FlushHeld(acc: Acc)
    ensures Held(FlushAcc(acc)) == Held(acc)
  {
    BytesAppend(acc.pieces, Flushed(acc.buf));
  }

  lemma LongLineHeld(acc: Acc, line: seq<byte>, cap: nat, copies: nat)
    requires |line| > cap
    ensures Held(LongLine(acc, line, cap, copies)) == Held(acc) + Contribution(line, cap, copies)
  {
    hide Bytes, Repeat;
    var f := FlushAcc(acc);
    FlushHeld(acc);
    BytesAppend(f.pieces, Head(line[..cap]));
    Associative(Bytes(f.pieces), line[..cap], Repeat(line[cap..] + [NEWLINE], copies));
  }

  lemma ShortLineHeld(acc: Acc, line: seq<byte>)
    ensures Held(ShortLine(acc, line)) == Held(acc) + (line + [NEWLINE])
  {
    hide Bytes;
    Associative(Bytes(acc.pieces), acc.buf, line + [NEWLINE]);
  }

  lemma AddLineHeld(acc: Acc, line: seq<byte>, cap: nat, copies: nat)
    ensures Held(AddLine(acc, line, cap, copies)) == Held(acc) + Contribution(line, cap, copies)
  {
    hide Held, LongLine, ShortLine, FlushAcc, Repeat;
    FlushHeld(acc);
    if |line| > cap {
      LongLineHeld(acc, line, cap, copies);
      FlushHeld(LongLine(acc, line, cap, copies));
    } else if line != [] {
      ShortLineHeld(acc, line);
      FlushHeld(ShortLine(acc, line));
    }
  }

  /**
   * The untrimmed pieces, joined, are the lines in order, each with its newline; an over-long line is its
   * first `cap` bytes followed by `copies` copies of its tail. The code as written has two copies.
   */
  lemma {:induction false} Conservation(lines: seq<seq<byte>>, cap: nat, copies: nat)
    ensures Bytes(Pieces(lines, cap, copies)) == Contributions(lines, cap, copies)
    ensures Held(AddLines(lines, cap, copies)) == Contributions(lines, cap, copies)
  {
    if lines != [] {
      var n := |lines| - 1;
      Conservation(lines[..n], cap, copies);
      AddLineHeld(AddLines(lines[..n], cap, copies), lines[n], cap, copies);
    }
    FlushHeld(AddLines(lines, cap, copies));
  }

  /** A line as the file has it; blank lines leave nothing. */
  function WholeLine(line: seq<byte>): seq<byte> { if line == [] then [] else line + [NEWLINE] }

  function JoinLines(lines: seq<seq<byte>>): seq<byte> { ConcatMap(lines, WholeLine) }

  /** With the tail kept once, nothing is lost or repeated, over-long lines included. */
  lemma {:induction false} IntendedConservation(lines: seq<seq<byte>>, cap: nat)
    ensures Bytes(Pieces(lines, cap, 1)) == JoinLines(lines)
  {
    Conservation(lines, cap, 1);
    IntendedContributions(lines, cap);
  }

  lemma {:induction false} IntendedContributions(lines: seq<seq<byte>>, cap: nat)
    ensures Contributions(lines, cap, 1) == JoinLines(lines)
  {
    if lines != [] {
      var last := lines[|lines| - 1];
      IntendedContributions(lines[..|lines| - 1], cap);
      if |last| > cap {
        var tail := last[cap..] + [NEWLINE];
        RepeatOnce(tail);
        assert last[..cap] + tail == last + [NEWLINE];
      }
    }
  }

  // ---------- where texts begin and end ----------

  /** The pieces so far do not matter for what a line does. */
  lemma AddLineAfter(done: seq<Piece>, acc: Acc, line: seq<byte>, cap: nat, copies: nat)
    ensures AddLine(Acc(done + acc.pieces, acc.buf), line, cap, copies) ==
            Acc(done + AddLine(acc, line, cap, copies).pieces, AddLine(acc, line, cap, copies).buf)
  {
    hide Repeat;
    FlushAfter(done, acc);
    if |line| > cap {
      var head := [Head(line[..cap])];
      Associative(done, FlushAcc(acc).pieces, head);
      FlushAfter(done, LongLine(acc, line, cap, copies));
    } else if line != [] {
      FlushAfter(done, ShortLine(acc, line));
    }
  }

  lemma FlushAfter(done: seq<Piece>, acc: Acc)
    ensures FlushAcc(Acc(done + acc.pieces, acc.buf)) == Acc(done + FlushAcc(acc).pieces, FlushAcc(acc).buf)
  {
    Associative(done, acc.pieces, [Flushed(acc.buf)]);
  }

  lemma AddLinesLast(lines: seq<seq<byte>>, line: seq<byte>, cap: nat, copies: nat)
    ensures AddLines(lines + [line], cap, copies) == AddLine(AddLines(lines, cap, copies), line, cap, copies)
  {
    hide AddLine;
    assert (lines + [line])[..|lines|] == lines;
  }

  lemma {:induction false} AddLinesAfterBlank(p: seq<seq<byte>>, q: seq<seq<byte>>, cap: nat, copies: nat)
    ensures AddLines(p + [[]] + q, cap, copies) ==
            Acc(Pieces(p, cap, copies) + AddLines(q, cap, copies).pieces, AddLines(q, cap, copies).buf)
  {
    if q == [] {
      AddLinesLast(p, [], cap, copies);
      assert p + [[]] + q == p + [[]];
    } else {
      hide AddLine;
      var (front, last) := (q[..|q| - 1], q[|q| - 1]);
      AddLinesAfterBlank(p, front, cap, copies);
      AddLinesLast(p + [[]] + front, last, cap, copies);
      assert p + [[]] + q == (p + [[]] + front) + [last];
      AddLineAfter(Pieces(p, cap, copies), AddLines(front, cap, copies), last, cap, copies);
    }
  }

  /** A blank line separates: what stands before it and what stands after it never share a text. */
  lemma BlankLineSplits(p: seq<seq<byte>>, q: seq<seq<byte>>, cap: nat, copies: nat)
    ensures Pieces(p + [[]] + q, cap, copies) == Pieces(p, cap, copies) + Pieces(q, cap, copies)
  {
    hide AddLines;
    AddLinesAfterBlank(p, q, cap, copies);
    FlushAfter(Pieces(p, cap, copies), AddLines(q, cap, copies));
  }

  /** The text of a flushed buffer neither begins nor ends with white space; a head is emitted as it is. */
  lemma TextEdges(pieces: seq<Piece>, i: nat)
    requires i < |pieces|
    ensures pieces[i].Flushed? ==>
      SpaceAt(Rows(pieces)[i].text) == 0 && SpaceBefore(Rows(pieces)[i].text) == 0
    ensures pieces[i].Head? ==> Rows(pieces)[i].text == pieces[i].bytes
  {
    TrimmedEdges(pieces[i].bytes);
  }

  // ---------- conservation of the emitted texts, white space aside ----------

  function ErasedTexts(rows: seq<ChunkRow>): seq<byte> { ConcatMap(rows, (row: ChunkRow) => Erase(row.text)) }

  function RepeatErased(s: seq<byte>, copies: nat): seq<byte> { Repeat(Erase(s), copies) }

  function ErasedContribution(line: seq<byte>, cap: nat, copies: nat): seq<byte> {
    if |line| > cap then Erase(line[..cap]) + RepeatErased(line[cap..], copies) else Erase(line)
  }

  function ErasedContributions(lines: seq<seq<byte>>, cap: nat, copies: nat): seq<byte> {
    ConcatMap(lines, line => ErasedContribution(line, cap, copies))
  }

  function ErasedPieces(pieces: seq<Piece>): seq<byte> { ConcatMap(pieces, (p: Piece) => Erase(p.bytes)) }

  lemma ErasedPiecesAppend(pieces: seq<Piece>, p: Piece)
    ensures ErasedPieces(pieces + [p]) == ErasedPieces(pieces) + Erase(p.bytes)
  {
    ConcatMapAppend(pieces, p, (p: Piece) => Erase(p.bytes));
  }

  /** A buffer is empty or ends with a newline, so no character straddles its end. */
  predicate Closed(buf: seq<byte>) {
    buf != [] ==> buf[|buf| - 1] == NEWLINE
  }

  function ErasedHeld(acc: Acc): seq<byte> { ErasedPieces(acc.pieces) + Erase(acc.buf) }

  lemma FlushErased(acc: Acc)
    ensures ErasedHeld(FlushAcc(acc)) == ErasedHeld(acc)
    ensures Closed(acc.buf) ==> Closed(FlushAcc(acc).buf)
  {
    ErasedPiecesAppend(acc.pieces, Flushed(acc.buf));
  }

  lemma EraseNothing()
    ensures Erase([]) == []
  {
  }

  lemma EraseNewline(s: seq<byte>)
    ensures Erase(s + [NEWLINE]) == Erase(s)
  {
    EraseConcat(s, [NEWLINE]);
    assert [NEWLINE][1..] == [];
  }

  lemma {:induction false} EraseRepeat(s: seq<byte>, copies: nat)
    ensures Erase(Repeat(s + [NEWLINE], copies)) == RepeatErased(s, copies)
    ensures Closed(Repeat(s + [NEWLINE], copies))
  {
    hide Erase;
    EraseNothing();
    if copies > 0 {
      EraseRepeat(s, copies - 1);
      EraseConcat(s + [NEWLINE], Repeat(s + [NEWLINE], copies - 1));
      EraseNewline(s);
    }
  }

  lemma LongLineErased(acc: Acc, line: seq<byte>, cap: nat, copies: nat)
    requires |line| > cap
    ensures Closed(LongLine(acc, line, cap, copies).buf)
    ensures ErasedHeld(LongLine(acc, line, cap, copies)) ==
            ErasedHeld(acc) + (Erase(line[..cap]) + RepeatErased(line[cap..], copies))
  {
    var f := FlushAcc(acc);
    var head := line[..cap];
    FlushErased(acc);
    assert ErasedHeld(f) == ErasedPieces(f.pieces);
    ErasedPiecesAppend(f.pieces, Head(head));
    EraseRepeat(line[cap..], copies);
    Associative(ErasedPieces(f.pieces), Erase(head), RepeatErased(line[cap..], copies));
  }

  lemma ShortLineErased(acc: Acc, line: seq<byte>)
    requires Closed(acc.buf)
    ensures Closed(ShortLine(acc, line).buf)
    ensures ErasedHeld(ShortLine(acc, line)) == ErasedHeld(acc) + Erase(line)
  {
    hide Erase;
    EraseConcat(acc.buf, line + [NEWLINE]);
    EraseNewline(line);
  }

  lemma AddLineErased(acc: Acc, line: seq<byte>, cap: nat, copies: nat)
    requires Closed(acc.buf)
    ensures Closed(AddLine(acc, line, cap, copies).buf)
    ensures ErasedHeld(AddLine(acc, line, cap, copies)) == ErasedHeld(acc) + ErasedContribution(line, cap, copies)
  {
    if |line| > cap {
      LongLineErased(acc, line, cap, copies);
      FlushErased(LongLine(acc, line, cap, copies));
    } else if line != [] {
      ShortLineErased(acc, line);
      FlushErased(ShortLine(acc, line));
    } else {
      FlushErased(acc);
    }
  }

  lemma {:induction false} RowsErased(pieces: seq<Piece>)
    ensures ErasedTexts(Rows(pieces)) == ErasedPieces(pieces)
  {
    if pieces != [] {
      var n := |pieces| - 1;
      RowsErased(pieces[..n]);
      assert Rows(pieces)[..n] == Rows(pieces[..n]);
      EraseTrim(pieces[n].bytes);
    }
  }

  /** The same conservation for the texts that are emitted, despite trimming. */
  lemma {:induction false} TextConservation(lines: seq<seq<byte>>, cap: nat, copies: nat)
    ensures Closed(AddLines(lines, cap, copies).buf)
    ensures ErasedHeld(AddLines(lines, cap, copies)) == ErasedContributions(lines, cap, copies)
    ensures ErasedTexts(Rows(Pieces(lines, cap, copies))) == ErasedContributions(lines, cap, copies)
  {
    if lines != [] {
      var n := |lines| - 1;
      TextConservation(lines[..n], cap, copies);
      AddLineErased(AddLines(lines[..n], cap, copies), lines[n], cap, copies);
    }
    FlushErased(AddLines(lines, cap, copies));
    RowsErased(Pieces(lines, cap, copies));
  }

  // ---------- against the content of the file ----------

  function ErasedLines(lines: seq<seq<byte>>): seq<byte> { ConcatMap(lines, Erase) }

  function Terminated(line: seq<byte>): seq<byte> { line + [NEWLINE] }

  /** Lines hold no newline, and with a newline after each they are the file, up to a final newline it may lack. */
  lemma {:induction false} RawLinesAreLines(content: seq<byte>)
    ensures forall i :: 0 <= i < |RawLines(content)| ==> NEWLINE !in RawLines(content)[i]
    ensures ConcatMap(RawLines(content), Terminated) ==
      if Closed(content) then content else content + [NEWLINE]
    decreases |content|
  {
    hide IndexNewline, ConcatMap;
    var k := IndexNewline(content);
    if k == |content| {
      LastRawLine(content);
    } else {
      RawLinesAreLines(content[k + 1..]);
      ConcatMapCons(content[..k], RawLines(content[k + 1..]), Terminated);
      CutAtNewline(content, k);
    }
  }

  lemma LastRawLine(content: seq<byte>)
    requires NEWLINE !in content
    ensures RawLines(content) == if content == [] then [] else [content]
    ensures ConcatMap(RawLines(content), Terminated) == if content == [] then [] else content + [NEWLINE]
    ensures content != [] ==> !Closed(content)
  {
    if content != [] {
      assert IndexNewline(content) == |content| && content[..|content|] == content;
      ConcatMapAppend([], content, Terminated);
      assert [] + [content] == [content];
    }
  }

  lemma CutAtNewline(content: seq<byte>, k: nat)
    requires k < |content| && content[k] == NEWLINE
    ensures content == Terminated(content[..k]) + content[k + 1..]
    ensures content + [NEWLINE] == Terminated(content[..k]) + (content[k + 1..] + [NEWLINE])
    ensures Closed(content) <==> Closed(content[k + 1..])
  {
  }

  /** One line at the front of a file; of a carriage return before the newline nothing is left. */
  lemma FirstLine(line: seq<byte>, rest: seq<byte>)
    requires NEWLINE !in line
    ensures Lines(line + [RETURN, NEWLINE] + rest) == [line] + Lines(rest)
    ensures line == [] || line[|line| - 1] != RETURN ==> Lines(line + [NEWLINE] + rest) == [line] + Lines(rest)
  {
    hide IndexNewline, Lines, DropReturn;
    FrontLine(line + [RETURN], rest);
    FrontLine(line, rest);
    assert line + [RETURN, NEWLINE] + rest == (line + [RETURN]) + [NEWLINE] + rest;
    ReturnDropped(line);
  }

  lemma ReturnDropped(line: seq<byte>)
    ensures DropReturn(line + [RETURN]) == line
    ensures line == [] || line[|line| - 1] != RETURN ==> DropReturn(line) == line
  {
  }

  lemma FrontLine(raw: seq<byte>, rest: seq<byte>)
    requires NEWLINE !in raw
    ensures Lines(raw + [NEWLINE] + rest) == [DropReturn(raw)] + Lines(rest)
  {
    hide IndexNewline, Lines, DropReturn;
    var content := raw + [NEWLINE] + rest;
    FirstNewline(raw, rest);
    assert content[..|raw|] == raw && content[|raw| + 1..] == rest;
    LinesUnfold(content);
  }

  lemma {:induction false} FirstNewline(raw: seq<byte>, rest: seq<byte>)
    requires NEWLINE !in raw
    ensures IndexNewline(raw + [NEWLINE] + rest) == |raw|
  {
    if raw != [] {
      FirstNewline(raw[1..], rest);
      assert (raw + [NEWLINE] + rest)[1..] == raw[1..] + [NEWLINE] + rest;
    }
  }

  lemma EraseDropReturn(raw: seq<byte>)
    ensures Erase(DropReturn(raw)) == Erase(raw)
  {
    if raw != [] && raw[|raw| - 1] == RETURN {
      var l := DropReturn(raw);
      assert raw == l + [RETURN] && [RETURN][1..] == [];
      EraseConcat(l, [RETURN]);
    }
  }

  lemma LinesUnfold(content: seq<byte>)
    requires content != []
    ensures var k := IndexNewline(content);
      Lines(content) == [DropReturn(content[..k])] + (if k == |content| then [] else Lines(content[k + 1..]))
  {
    hide IndexNewline, DropReturn;
    var k := IndexNewline(content);
    if k == |content| {
      assert content[..k] == content;
      DropReturnsCons(content[..k], []);
    } else {
      DropReturnsCons(content[..k], RawLines(content[k + 1..]));
    }
  }

  lemma ErasedLinesCons(x: seq<byte>, rest: seq<seq<byte>>)
    ensures ErasedLines([x] + rest) == Erase(x) + ErasedLines(rest)
    ensures ErasedLines(Lines([])) == ErasedLines([]) == []
  {
    hide Erase;
    ConcatMapCons(x, rest, Erase);
  }

  /** The lines hold everything in the file but white space. */
  lemma {:induction false} LinesErased(content: seq<byte>)
    ensures ErasedLines(Lines(content)) == Erase(content)
    decreases |content|
  {
    hide *;
    EraseNothing();
    ErasedLinesCons([], []);
    if content != [] {
      var k := IndexNewline(content);
      var first := content[..k];
      LinesUnfold(content);
      EraseDropReturn(first);
      if k == |content| {
        assert first == content && [DropReturn(first)] + [] == Lines(content);
        ErasedLinesCons(DropReturn(first), []);
      } else {
        ErasedLinesCons(DropReturn(first), Lines(content[k + 1..]));
        LinesErased(content[k + 1..]);
        EraseFirstLine(content, k);
      }
    }
  }

  lemma EraseFirstLine(content: seq<byte>, k: nat)
    requires k < |content| && content[k] == NEWLINE
    ensures Erase(content) == Erase(content[..k]) + Erase(content[k + 1..])
  {
    var line := content[..k] + [NEWLINE];
    assert content == line + content[k + 1..];
    EraseConcat(line, content[k + 1..]);
    EraseNewline(content[..k]);
  }

  predicate AllSpace(s: seq<byte>) { Erase(s) == [] }

  /** The tail of every over-long line is blank. */
  predicate BlankTails(lines: seq<seq<byte>>, cap: nat) {
    forall i :: 0 <= i < |lines| && |lines[i]| > cap ==> AllSpace(lines[i][cap..])
  }

  /** White space starts with a whole character. */
  lemma AllSpaceSeam(a: seq<byte>, b: seq<byte>)
    ensures AllSpace(b) ==> CleanSeam(a, b)
  {
    assert AllSpace(b) && b != [] ==> SpaceAt(b) > 0;
  }

  /** No line gives less than its own content; with two copies it gives more exactly when its tail is not blank. */
  lemma ContributionLength(line: seq<byte>, cap: nat)
    ensures |ErasedContribution(line, cap, 2)| >= |Erase(line)|
    ensures |line| > cap && !AllSpace(line[cap..]) ==> |ErasedContribution(line, cap, 2)| > |Erase(line)|
    ensures |line| > cap && AllSpace(line[cap..]) ==> ErasedContribution(line, cap, 2) == Erase(line)
  {
    hide Erase;
    if |line| > cap {
      var (head, tail) := (line[..cap], line[cap..]);
      assert line == head + tail;
      EraseJoinShorter(head, tail);
      RepeatTwice(Erase(tail));
      if AllSpace(tail) {
        AllSpaceSeam(head, tail);
        EraseConcat(head, tail);
      }
    }
  }

  lemma BlankTailsSnoc(lines: seq<seq<byte>>, last: seq<byte>, cap: nat)
    ensures BlankTails(lines + [last], cap) <==>
            BlankTails(lines, cap) && (|last| > cap ==> AllSpace(last[cap..]))
  {
    var all := lines + [last];
    assert all[|lines|] == last && forall i :: 0 <= i < |lines| ==> all[i] == lines[i];
  }

  lemma {:induction false} ContributionsLength(lines: seq<seq<byte>>, cap: nat)
    ensures |ErasedContributions(lines, cap, 2)| >= |ErasedLines(lines)|
    ensures BlankTails(lines, cap) ==> ErasedContributions(lines, cap, 2) == ErasedLines(lines)
    ensures !BlankTails(lines, cap) ==> |ErasedContributions(lines, cap, 2)| > |ErasedLines(lines)|
  {
    hide Erase;
    if lines != [] {
      var n := |lines| - 1;
      var front := lines[..n];
      var last := lines[n];
      assert lines == front + [last];
      ContributionsLength(front, cap);
      ContributionLength(last, cap);
      ConcatMapAppend(front, last, Erase);
      BlankTailsSnoc(front, last, cap);
    }
  }

  /**
   * White space aside, the code as written emits exactly the content of the file if and only if every
   * over-long line is blank beyond the cap; otherwise it emits strictly more.
   */
  lemma LiteralConservesIffBlankTails(content: seq<byte>, cap: nat)
    ensures var rows := Rows(Pieces(Lines(content), cap, TAIL_WRITES));
      && (ErasedTexts(rows) == Erase(content) <==> BlankTails(Lines(content), cap))
      && (!BlankTails(Lines(content), cap) ==> |ErasedTexts(rows)| > |Erase(content)|)
  {
    TextConservation(Lines(content), cap, 2);
    LinesErased(content);
    ContributionsLength(Lines(content), cap);
  }

  predicate AllFit(lines: seq<seq<byte>>, cap: nat) {
    forall i :: 0 <= i < |lines| ==> |lines[i]| <= cap
  }

  lemma {:induction false} FittingLinesAgree(lines: seq<seq<byte>>, cap: nat)
    requires AllFit(lines, cap)
    ensures AddLines(lines, cap, 2) == AddLines(lines, cap, 1)
  {
    if lines != [] {
      FittingLinesAgree(lines[..|lines| - 1], cap);
    }
  }

  lemma ContributionGrows(line: seq<byte>, cap: nat)
    ensures |Contribution(line, cap, 2)| >= |Contribution(line, cap, 1)|
    ensures |line| > cap ==> |Contribution(line, cap, 2)| > |Contribution(line, cap, 1)|
  {
    RepeatOnce(line[if |line| > cap then cap else 0..] + [NEWLINE]);
    RepeatTwice(line[if |line| > cap then cap else 0..] + [NEWLINE]);
  }

  lemma {:induction false} ContributionsGrow(lines: seq<seq<byte>>, cap: nat)
    ensures |Contributions(lines, cap, 2)| >= |Contributions(lines, cap, 1)|
    ensures !AllFit(lines, cap) ==> |Contributions(lines, cap, 2)| > |Contributions(lines, cap, 1)|
  {
    hide Contribution;
    if lines != [] {
      var n := |lines| - 1;
      ContributionsGrow(lines[..n], cap);
      ContributionGrows(lines[n], cap);
      assert AllFit(lines[..n], cap) && |lines[n]| <= cap ==> AllFit(lines, cap);
    }
  }

  /** Keeping a tail twice or once gives the same pieces exactly when there is no over-long line. */
  lemma PiecesAgreeIffLinesFit(lines: seq<seq<byte>>, cap: nat)
    ensures Pieces(lines, cap, TAIL_WRITES) == Pieces(lines, cap, 1) <==> AllFit(lines, cap)
  {
    hide AddLines, Contributions;
    if AllFit(lines, cap) {
      FittingLinesAgree(lines, cap);
    } else {
      Conservation(lines, cap, 1);
      Conservation(lines, cap, 2);
      ContributionsGrow(lines, cap);
    }
  }

  lemma {:induction false} IntendedIsShorter(lines: seq<seq<byte>>, cap: nat)
    ensures |ErasedContributions(lines, cap, 1)| <= |ErasedContributions(lines, cap, 2)|
    ensures !BlankTails(lines, cap) ==> |ErasedContributions(lines, cap, 1)| < |ErasedContributions(lines, cap, 2)|
  {
    hide Erase;
    if lines != [] {
      var n := |lines| - 1;
      IntendedIsShorter(lines[..n], cap);
      if |lines[n]| > cap {
        var e := Erase(lines[n][cap..]);
        assert Repeat(e, 2) == e + Repeat(e, 1);
      }
      assert lines == lines[..n] + [lines[n]];
      BlankTailsSnoc(lines[..n], lines[n], cap);
    }
  }

  /** Conversely, where the two agree, no over-long line has anything but white space beyond the cap. */
  lemma AgreementMeansBlankTails(lines: seq<seq<byte>>, cap: nat)
    requires Rows(Pieces(lines, cap, TAIL_WRITES)) == Rows(Pieces(lines, cap, 1))
    ensures BlankTails(lines, cap)
  {
    TextConservation(lines, cap, 1);
    TextConservation(lines, cap, 2);
    IntendedIsShorter(lines, cap);
  }

  /** Blank tails are not enough: the second copy can move the point at which the buffer is flushed. */
  lemma BlankTailsAreNotEnough()
    ensures var lines: seq<seq<byte>> := [[97, 98, 99, 100, 32], [120]];
      && BlankTails(lines, 4)
      && |Rows(Pieces(lines, 4, TAIL_WRITES))| == 3 && |Rows(Pieces(lines, 4, 1))| == 2
  {
    var long: seq<byte> := [97, 98, 99, 100, 32];
    var lines := [long, [120]];
    var tail: seq<byte> := [32, NEWLINE];
    assert long[4..] == [32] && long[4..] + [NEWLINE] == tail && AllSpace(long[4..]);
    RepeatOnce(tail);
    RepeatTwice(tail);
    assert lines[..1] == [long] && lines[..1][..0] == [];
    assert AddLines([], 4, 1) == AddLines([], 4, 2) == Acc([], []);
    assert AddLines(lines[..1], 4, 1) == LongLine(Acc([], []), long, 4, 1);
    assert AddLines(lines[..1], 4, 2) == FlushAcc(LongLine(Acc([], []), long, 4, 2));
    assert AddLines(lines, 4, 1) == AddLine(AddLines(lines[..1], 4, 1), [120], 4, 1);
    assert AddLines(lines, 4, 2) == AddLine(AddLines(lines[..1], 4, 2), [120], 4, 2);
  }

  // ---------- size ----------

  function Max(a: int, b: int): int { if a < b then b else a }

  /** The most bytes the buffer can hold before a line, when no line is longer than `longest` and all fit the cap. */
  function Reach(cap: nat, longest: nat): nat
    requires cap > 0
  {
    if longest <= 1 then 2 * ((cap - 1) / 2)
    else if cap == 2 then 0
    else cap - 1
  }

  /** The length of the longest text there can be when no line is longer than `longest`. */
  function Bound(cap: nat, longest: nat): int
    requires cap > 0
  {
    if longest == 0 then 0
    else if longest <= cap then Reach(cap, longest) + longest
    else Max(2 * cap - 1, 2 * (longest - cap) + 1)
  }

  predicate PiecesBounded(pieces: seq<Piece>, bound: int) {
    forall i :: 0 <= i < |pieces| ==> |Text(pieces[i])| <= bound
  }

  lemma FlushBounded(acc: Acc, bound: int)
    requires PiecesBounded(acc.pieces, bound) && Closed(acc.buf) && |acc.buf| <= bound + 1
    ensures PiecesBounded(FlushAcc(acc).pieces, bound)
  {
    TrimLength(acc.buf);
  }

  /** The buffer is empty or holds whole lines that are not blank, each with its newline. */
  predicate BufferSize(size: nat, cap: nat, longest: nat) {
    size < cap && size != 1 && (longest <= 1 ==> size % 2 == 0) && (longest == 0 ==> size == 0)
  }

  predicate AtLoopHead(acc: Acc, cap: nat, longest: nat)
    requires cap > 0
  {
    BufferSize(|acc.buf|, cap, longest) && Closed(acc.buf) && PiecesBounded(acc.pieces, Bound(cap, longest))
  }

  lemma LongLineBounded(acc: Acc, line: seq<byte>, cap: nat, longest: nat)
    requires cap > 0 && AtLoopHead(acc, cap, longest) && cap < |line| <= longest
    ensures AtLoopHead(FlushIfFull(LongLine(acc, line, cap, 2), cap), cap, longest)
  {
    FlushBounded(acc, Bound(cap, longest));
    RepeatTwice(line[cap..] + [NEWLINE]);
    EraseRepeat(line[cap..], 2);
    FlushBounded(LongLine(acc, line, cap, 2), Bound(cap, longest));
  }

  lemma ShortLineBounded(acc: Acc, line: seq<byte>, cap: nat, longest: nat)
    requires cap > 0 && AtLoopHead(acc, cap, longest) && 0 < |line| <= longest && |line| <= cap
    ensures AtLoopHead(FlushIfFull(ShortLine(acc, line), cap), cap, longest)
  {
    FlushBounded(ShortLine(acc, line), Bound(cap, longest));
  }

  /** Before every line the buffer holds fewer than `cap` bytes, and every text so far is within the bound. */
  lemma {:induction false} LoopHead(lines: seq<seq<byte>>, cap: nat, longest: nat)
    requires cap > 0 && AllFit(lines, longest)
    ensures AtLoopHead(AddLines(lines, cap, 2), cap, longest)
  {
    if lines != [] {
      var n := |lines| - 1;
      var line := lines[n];
      LoopHead(lines[..n], cap, longest);
      var acc := AddLines(lines[..n], cap, 2);
      if |line| > cap {
        LongLineBounded(acc, line, cap, longest);
      } else if line != [] {
        ShortLineBounded(acc, line, cap, longest);
      } else {
        FlushBounded(acc, Bound(cap, longest));
      }
    }
  }

  predicate TextsWithin(lines: seq<seq<byte>>, cap: nat, bound: int) {
    var rows := Rows(Pieces(lines, cap, TAIL_WRITES));
    forall i :: 0 <= i < |rows| ==> |rows[i].text| <= bound
  }

  /** Every text is within the bound; when every line fits the cap that is below the cap plus the longest line. */
  lemma TextsBounded(lines: seq<seq<byte>>, cap: nat, longest: nat)
    requires cap > 0 && AllFit(lines, longest)
    ensures TextsWithin(lines, cap, Bound(cap, longest))
    ensures longest <= cap ==> TextsWithin(lines, cap, cap - 1 + longest) && TextsWithin(lines, cap, 2 * cap - 1)
  {
    LoopHead(lines, cap, longest);
    FlushBounded(AddLines(lines, cap, 2), Bound(cap, longest));
  }

  /** For every file the chunker accepts, the scanner's limit on lines bounds the texts. */
  lemma AcceptedTextsBounded(content: seq<byte>, cap: nat)
    requires cap > 0 && LinesFit(RawLines(content), MaxToken(cap))
    ensures TextsWithin(Lines(content), cap, Bound(cap, MaxToken(cap) - 1))
  {
    hide RawLines, TextsWithin, Bound;
    var raw := RawLines(content);
    forall i | 0 <= i < |raw| ensures |Lines(content)[i]| <= MaxToken(cap) - 1 {
      assert |raw[i]| < MaxToken(cap);
    }
    TextsBounded(Lines(content), cap, MaxToken(cap) - 1);
  }

  /** A line of `n` letters. */
  function Letters(n: nat): (r: seq<byte>)
    ensures |r| == n && forall i :: 0 <= i < n ==> r[i] == 97
  {
    seq(n, _ => 97)
  }

  /** Two lines, the second as long as the cap, that end up in one chunk. */
  function SharedLines(cap: nat): seq<seq<byte>>
    requires cap >= 3
  {
    [Letters(cap - 2), Letters(cap)]
  }

  lemma SharedPiece(cap: nat)
    requires cap >= 3
    ensures var buf := (Letters(cap - 2) + [NEWLINE]) + (Letters(cap) + [NEWLINE]);
      Pieces(SharedLines(cap), cap, 2) == [Flushed(buf)]
  {
    var lines := SharedLines(cap);
    assert lines[..1] == [Letters(cap - 2)] && lines[..1][..0] == [];
    assert AddLines([], cap, 2) == Acc([], []);
    assert AddLines(lines[..1], cap, 2) == Acc([], Letters(cap - 2) + [NEWLINE]);
    assert AddLines(lines, cap, 2) == AddLine(AddLines(lines[..1], cap, 2), lines[1], cap, 2);
  }

  lemma TrimFinalNewline(s: seq<byte>)
    requires s != [] && s[0] == 97 && s[|s| - 1] == 97
    ensures TrimSpace(s + [NEWLINE]) == s
  {
    var b := s + [NEWLINE];
    assert TrimLeft(b) == b;
    assert b[..|s|] == s;
    assert TrimRight(b) == TrimRight(s) == s;
  }

  /** From a cap of 3 on lines that fit share a text of 2 * cap - 1 bytes: the cap itself is no bound. */
  lemma SharedText(cap: nat)
    requires cap >= 3
    ensures var rows := Rows(Pieces(SharedLines(cap), cap, TAIL_WRITES));
      AllFit(SharedLines(cap), cap) && |rows| == 1 && |rows[0].text| == 2 * cap - 1 > cap
  {
    hide TrimSpace, Pieces;
    SharedPiece(cap);
    var s := (Letters(cap - 2) + [NEWLINE]) + Letters(cap);
    assert (Letters(cap - 2) + [NEWLINE]) + (Letters(cap) + [NEWLINE]) == s + [NEWLINE];
    TrimFinalNewline(s);
  }

  /** A single over-long line ends up with two copies of its tail in one text. */
  lemma TailText(cap: nat, longest: nat)
    requires 0 < cap < longest
    ensures var rows := Rows(Pieces([Letters(longest)], cap, TAIL_WRITES));
      |rows| == 2 && |rows[1].text| == 2 * (longest - cap) + 1
  {
    var line := Letters(longest);
    var tail := line[cap..] + [NEWLINE];
    var none: seq<seq<byte>> := [];
    assert [line][..0] == none && AddLines([], cap, 2) == Acc([], []);
    assert AddLines([line], cap, 2) == AddLine(Acc([], []), line, cap, 2);
    RepeatTwice(tail);
    assert Pieces([line], cap, 2) == [Head(line[..cap]), Flushed(tail + tail)];
    TailTrimmed(line[cap..]);
  }

  lemma TailTrimmed(tail: seq<byte>)
    requires tail != [] && tail[0] == 97 && tail[|tail| - 1] == 97
    ensures |TrimSpace((tail + [NEWLINE]) + (tail + [NEWLINE]))| == 2 * |tail| + 1
  {
    hide TrimSpace;
    var s := (tail + [NEWLINE]) + tail;
    assert (tail + [NEWLINE]) + (tail + [NEWLINE]) == s + [NEWLINE];
    TrimFinalNewline(s);
  }

  /** Lines of one letter, and one of two if `n` is odd, that bring an empty buffer to `n` bytes. */
  function Fill(n: nat): seq<seq<byte>>
    requires n != 1
  {
    if n == 0 then []
    else if n == 3 then [Letters(2)]
    else Fill(n - 2) + [Letters(1)]
  }

  lemma {:induction false} FillBuffer(n: nat, cap: nat)
    requires n != 1 && n < cap
    ensures var acc := AddLines(Fill(n), cap, 2);
      acc.pieces == [] && |acc.buf| == n && (n > 0 ==> acc.buf[0] == 97)
    ensures AllFit(Fill(n), if n % 2 == 0 then 1 else 2)
  {
    hide AddLine, AddLines;
    NoLinesAdded(cap);
    if n == 3 {
      AddLinesSnoc([], Letters(2), cap);
      LettersAdded(AddLines([], cap, 2), 2, cap);
      assert [] + [Letters(2)] == Fill(3);
    } else if n > 0 {
      FillBuffer(n - 2, cap);
      AddLinesSnoc(Fill(n - 2), Letters(1), cap);
      LettersAdded(AddLines(Fill(n - 2), cap, 2), 1, cap);
    }
  }

  lemma NoLinesAdded(cap: nat)
    ensures AddLines([], cap, 2) == Acc([], [])
  {
  }

  lemma LettersAdded(acc: Acc, k: nat, cap: nat)
    requires k > 0 && |acc.buf| + k + 1 < cap
    ensures AddLine(acc, Letters(k), cap, 2) == Acc(acc.pieces, acc.buf + (Letters(k) + [NEWLINE]))
  {
  }

  lemma AddLinesSnoc(lines: seq<seq<byte>>, line: seq<byte>, cap: nat)
    ensures AddLines(lines + [line], cap, 2) == AddLine(AddLines(lines, cap, 2), line, cap, 2)
  {
    hide AddLine;
    assert (lines + [line])[..|lines|] == lines;
  }

  /** A buffer of `n` bytes and a line of `last` letters make one text of both. */
  lemma FilledText(n: nat, cap: nat, last: nat)
    requires n != 1 && n < cap && 0 < last <= cap
    ensures var rows := Rows(Pieces(Fill(n) + [Letters(last)], cap, TAIL_WRITES));
      |rows| == 1 && |rows[0].text| == n + last
  {
    hide Fill, AddLines, TrimSpace;
    FillBuffer(n, cap);
    AddLinesSnoc(Fill(n), Letters(last), cap);
    var buf := AddLines(Fill(n), cap, 2).buf;
    var s := buf + Letters(last);
    assert buf + (Letters(last) + [NEWLINE]) == s + [NEWLINE];
    assert Pieces(Fill(n) + [Letters(last)], cap, 2) == [Flushed(s + [NEWLINE])];
    TrimFinalNewline(s);
  }

  /** The bound is attained, for every cap and every length of the longest line. */
  lemma BoundIsTight(cap: nat, longest: nat) returns (lines: seq<seq<byte>>, i: nat)
    requires cap > 0 && longest > 0
    ensures AllFit(lines, longest)
    ensures var rows := Rows(Pieces(lines, cap, TAIL_WRITES)); i < |rows| && |rows[i].text| == Bound(cap, longest)
  {
    hide Pieces, Fill;
    if longest > cap && 2 * cap - 1 <= 2 * (longest - cap) + 1 {
      lines, i := [Letters(longest)], 1;
      TailText(cap, longest);
    } else {
      var last := if longest < cap then longest else cap;
      var n := Reach(cap, last);
      FillBuffer(n, cap);
      lines, i := Fill(n) + [Letters(last)], 0;
      FilledText(n, cap, last);
      assert forall k :: 0 <= k < |Fill(n)| ==> lines[k] == Fill(n)[k];
    }
  }

  /**
   * When the cap does what its comment says: it bounds every text of every file without longer lines exactly
   * when lines have at most one byte, or cap and lines at most two.
   */
  lemma CapBoundsTextsIff(cap: nat, longest: nat)
    requires cap > 0
    ensures (forall lines :: AllFit(lines, longest) ==> TextsWithin(lines, cap, cap))
      <==> longest <= 1 || (cap == 2 && longest == 2)
  {
    hide TextsWithin, AllFit;
    if longest <= 1 || (cap == 2 && longest == 2) {
      forall lines | AllFit(lines, longest) ensures TextsWithin(lines, cap, cap) {
        TextsBounded(lines, cap, longest);
        WithinWider(lines, cap, Bound(cap, longest), cap);
      }
    } else {
      var lines, i := BoundIsTight(cap, longest);
      NotWithin(lines, cap, i, cap);
    }
  }

  lemma WithinWider(lines: seq<seq<byte>>, cap: nat, bound: int, wider: int)
    requires TextsWithin(lines, cap, bound) && bound <= wider
    ensures TextsWithin(lines, cap, wider)
  {
  }

  lemma NotWithin(lines: seq<seq<byte>>, cap: nat, i: nat, bound: int)
    requires var rows := Rows(Pieces(lines, cap, TAIL_WRITES)); i < |rows| && |rows[i].text| > bound
    ensures !TextsWithin(lines, cap, bound)
  {
  }

  // ---------- UTF-8 ----------

  /** No over-long line is cut inside a character. */
  predicate CutsAtBoundaries(lines: seq<seq<byte>>, cap: nat) {
    forall i :: 0 <= i < |lines| && |lines[i]| > cap ==> Boundary(lines[i], cap)
  }

  predicate AllValid(lines: seq<seq<byte>>) {
    forall i :: 0 <= i < |lines| ==> Valid(lines[i])
  }

  predicate PiecesValid(pieces: seq<Piece>) {
    forall i :: 0 <= i < |pieces| ==> Valid(pieces[i].bytes)
  }

  lemma AllValidCons(x: seq<byte>, rest: seq<seq<byte>>)
    requires Valid(x) && AllValid(rest)
    ensures AllValid([x] + rest)
  {
    hide Valid;
  }

  /** Lines of valid text are valid: a newline or return is always a character boundary. */
  lemma {:induction false} LinesValid(content: seq<byte>)
    requires Valid(content)
    ensures AllValid(Lines(content))
    decreases |content|
  {
    hide Valid, Lines, DropReturn;
    assert content == [] ==> AllValid(Lines(content)) by {
      NoLines();
    }
    if content != [] {
      var k := IndexNewline(content);
      FirstLineValid(content);
      DropReturnValid(content[..k]);
      LinesUnfold(content);
      if k < |content| {
        LinesValid(content[k + 1..]);
        AllValidCons(DropReturn(content[..k]), Lines(content[k + 1..]));
      } else {
        AllValidCons(DropReturn(content[..k]), []);
      }
    }
  }

  lemma NoLines()
    ensures Lines([]) == []
  {
  }

  lemma FirstLineValid(content: seq<byte>)
    requires Valid(content)
    ensures var k := IndexNewline(content);
      Valid(content[..k]) && (k < |content| ==> Valid(content[k + 1..]))
  {
    hide IndexNewline;
    var k := IndexNewline(content);
    ValidCut(content, k);
    if k < |content| {
      assert content[k..][1..] == content[k + 1..];
    }
  }

  lemma DropReturnValid(raw: seq<byte>)
    requires Valid(raw)
    ensures Valid(DropReturn(raw))
  {
    if raw != [] && raw[|raw| - 1] == RETURN {
      ValidCut(raw, |raw| - 1);
    }
  }

  lemma ValidNewline(s: seq<byte>)
    requires Valid(s)
    ensures Valid(s + [NEWLINE])
  {
    assert [NEWLINE][1..] == [];
    ValidConcat(s, [NEWLINE]);
  }

  predicate AccValid(acc: Acc) { PiecesValid(acc.pieces) && Valid(acc.buf) }

  lemma LongLineValid(acc: Acc, line: seq<byte>, cap: nat)
    requires AccValid(acc) && Valid(line) && |line| > cap && Boundary(line, cap)
    ensures AccValid(LongLine(acc, line, cap, 2))
  {
    hide Valid, Repeat;
    var tail := line[cap..] + [NEWLINE];
    ValidCut(line, cap);
    ValidNewline(line[cap..]);
    RepeatTwice(tail);
    ValidConcat(tail, tail);
  }

  lemma ShortLineValid(acc: Acc, line: seq<byte>)
    requires AccValid(acc) && Valid(line)
    ensures AccValid(ShortLine(acc, line))
  {
    ValidNewline(line);
    ValidConcat(acc.buf, line + [NEWLINE]);
  }

  lemma AddLineValid(acc: Acc, line: seq<byte>, cap: nat)
    requires AccValid(acc) && Valid(line)
    requires |line| > cap ==> Boundary(line, cap)
    ensures AccValid(AddLine(acc, line, cap, 2))
  {
    if |line| > cap {
      LongLineValid(acc, line, cap);
    } else {
      ShortLineValid(acc, line);
    }
  }

  lemma {:induction false} AddLinesValid(lines: seq<seq<byte>>, cap: nat)
    requires AllValid(lines) && CutsAtBoundaries(lines, cap)
    ensures AccValid(AddLines(lines, cap, 2))
  {
    if lines != [] {
      var n := |lines| - 1;
      assert AllValid(lines[..n]) && CutsAtBoundaries(lines[..n], cap);
      AddLinesValid(lines[..n], cap);
      AddLineValid(AddLines(lines[..n], cap, 2), lines[n], cap);
    }
  }

  /** The head of an over-long line is emitted as it is. */
  lemma {:induction false} HeadEmitted(lines: seq<seq<byte>>, cap: nat, i: nat)
    requires i < |lines| && |lines[i]| > cap
    ensures Head(lines[i][..cap]) in AddLines(lines, cap, 2).pieces
  {
    var n := |lines| - 1;
    var acc := AddLines(lines[..n], cap, 2);
    if i < n {
      HeadEmitted(lines[..n], cap, i);
      assert acc.pieces <= AddLine(acc, lines[n], cap, 2).pieces;
    }
  }

  predicate TextsValid(rows: seq<ChunkRow>) {
    forall i :: 0 <= i < |rows| ==> Valid(rows[i].text)
  }

  lemma CleanCutsStayValid(lines: seq<seq<byte>>, cap: nat)
    requires AllValid(lines) && CutsAtBoundaries(lines, cap)
    ensures TextsValid(Rows(Pieces(lines, cap, 2)))
  {
    hide Valid;
    var pieces := Pieces(lines, cap, 2);
    AddLinesValid(lines, cap);
    forall i | 0 <= i < |pieces| ensures Valid(Text(pieces[i])) {
      ValidTrim(pieces[i].bytes);
    }
  }

  lemma SplitCharacterShows(lines: seq<seq<byte>>, cap: nat)
    requires AllValid(lines) && !CutsAtBoundaries(lines, cap)
    ensures !TextsValid(Rows(Pieces(lines, cap, 2)))
  {
    hide Valid, AddLines;
    var pieces := Pieces(lines, cap, 2);
    var i :| 0 <= i < |lines| && |lines[i]| > cap && !Boundary(lines[i], cap);
    HeadEmitted(lines, cap, i);
    ValidCut(lines[i], cap);
    var h := Head(lines[i][..cap]);
    assert h in pieces;
    var j :| 0 <= j < |pieces| && pieces[j] == h;
    assert !Valid(Rows(pieces)[j].text);
  }

  /**
   * For a valid file every emitted text is valid UTF-8 exactly when the cap falls on a character boundary
   * of every line it cuts; in particular when every line fits the cap.
   */
  lemma Utf8PreservedIffCutsAtBoundaries(content: seq<byte>, cap: nat)
    requires Valid(content)
    ensures TextsValid(Rows(Pieces(Lines(content), cap, TAIL_WRITES))) <==> CutsAtBoundaries(Lines(content), cap)
    ensures AllFit(Lines(content), cap) ==> CutsAtBoundaries(Lines(content), cap)
  {
    hide Valid;
    LinesValid(content);
    if CutsAtBoundaries(Lines(content), cap) {
      CleanCutsStayValid(Lines(content), cap);
    } else {
      SplitCharacterShows(Lines(content), cap);
    }
  }

  /** No over-long line is cut inside a white-space character. */
  predicate CutsSpareSpaces(lines: seq<seq<byte>>, cap: nat) {
    forall i :: 0 <= i < |lines| && |lines[i]| > cap ==> !SplitsSpace(lines[i], cap)
  }

  lemma SplitContribution(line: seq<byte>, cap: nat)
    requires |line| > cap
    ensures |ErasedContribution(line, cap, 1)| >= |Erase(line)|
    ensures if SplitsSpace(line, cap) then |ErasedContribution(line, cap, 1)| > |Erase(line)|
            else ErasedContribution(line, cap, 1) == Erase(line)
  {
    hide Erase, SplitsSpace;
    assert line == line[..cap] + line[cap..];
    EraseJoin(line[..cap], line[cap..]);
    RepeatOnce(Erase(line[cap..]));
  }

  lemma SparesSnoc(lines: seq<seq<byte>>, last: seq<byte>, cap: nat)
    ensures CutsSpareSpaces(lines + [last], cap) <==>
            CutsSpareSpaces(lines, cap) && (|last| > cap ==> !SplitsSpace(last, cap))
  {
    hide SplitsSpace;
    var all := lines + [last];
    assert all[|lines|] == last && forall i :: 0 <= i < |lines| ==> all[i] == lines[i];
  }

  lemma {:induction false} SplitContributions(lines: seq<seq<byte>>, cap: nat)
    ensures |ErasedContributions(lines, cap, 1)| >= |ErasedLines(lines)|
    ensures if CutsSpareSpaces(lines, cap) then ErasedContributions(lines, cap, 1) == ErasedLines(lines)
            else |ErasedContributions(lines, cap, 1)| > |ErasedLines(lines)|
  {
    hide Erase, SplitsSpace, CutsSpareSpaces;
    if lines == [] {
      NothingCut(cap);
    } else {
      var (front, last) := (lines[..|lines| - 1], lines[|lines| - 1]);
      assert lines == front + [last];
      SplitContributions(front, cap);
      SparesSnoc(front, last, cap);
      if |last| > cap {
        SplitContribution(last, cap);
      }
    }
  }

  lemma NothingCut(cap: nat)
    ensures CutsSpareSpaces([], cap)
  {
  }

  /**
   * With tails kept once the texts hold exactly the content, white space aside, if and only if no cut falls
   * inside a white-space character; so in particular when no character is split. Otherwise they hold more.
   */
  lemma IntendedTextConservation(content: seq<byte>, cap: nat)
    ensures var (lines, texts) := (Lines(content), ErasedTexts(Rows(Pieces(Lines(content), cap, 1))));
      && (texts == Erase(content) <==> CutsSpareSpaces(lines, cap))
      && (!CutsSpareSpaces(lines, cap) ==> |texts| > |Erase(content)|)
      && (CutsAtBoundaries(lines, cap) ==> CutsSpareSpaces(lines, cap))
  {
    hide *;
    TextConservation(Lines(content), cap, 1);
    SplitContributions(Lines(content), cap);
    LinesErased(content);
    BoundariesSpareSpaces(Lines(content), cap);
  }

  lemma BoundariesSpareSpaces(lines: seq<seq<byte>>, cap: nat)
    ensures CutsAtBoundaries(lines, cap) ==> CutsSpareSpaces(lines, cap)
  {
    hide SplitsSpace;
    if CutsAtBoundaries(lines, cap) {
      forall i | 0 <= i < |lines| && |lines[i]| > cap ensures !SplitsSpace(lines[i], cap) {
        BoundarySparesSpace(lines[i], cap);
      }
    }
  }
}
