/** The default chunker: lines gathered into a buffer that is flushed at blank lines and at a byte cap. */
module TextChunker {
  import opened SeqUtil
  import opened Utf8
  import opened Whitespace

  const DEFAULT_CAP: nat := 1500
  const SCAN_BUFFER: nat := 0x10000
  const NEWLINE: byte := 10
  const RETURN: byte := 13

  /** The tail of an over-long line is written at two places in the code. */
  const TAIL_WRITES: nat := 2

  datatype ChunkRow = ChunkRow(text: seq<byte>, kind: string, index: nat)

  datatype ChunkError = NotUtf8 | LineTooLong

  datatype Result = Ok(rows: seq<ChunkRow>) | Err(error: ChunkError)

  // ---------- the line splitter of bufio.Scanner ----------

  function IndexNewline(s: seq<byte>): (k: nat)
    ensures k <= |s|
    ensures k < |s| ==> s[k] == NEWLINE
    ensures NEWLINE !in s[..k]
  {
    if s == [] || s[0] == NEWLINE then 0
    else
      var k := 1 + IndexNewline(s[1..]);
      assert s[..k] == [s[0]] + s[1..][..k - 1];
      k
  }

  /** Newline-separated lines; no empty line after a final newline. */
  function RawLines(content: seq<byte>): seq<seq<byte>>
    decreases |content|
  {
    if content == [] then []
    else
      var k := IndexNewline(content);
      if k == |content| then [content] else [content[..k]] + RawLines(content[k + 1..])
  }

  function DropReturn(line: seq<byte>): seq<byte> {
    if line != [] && line[|line| - 1] == RETURN then line[..|line| - 1] else line
  }

  function DropReturns(raw: seq<seq<byte>>): (lines: seq<seq<byte>>)
    ensures |lines| == |raw| && forall i :: 0 <= i < |raw| ==> lines[i] == DropReturn(raw[i])
  {
    seq(|raw|, i requires 0 <= i < |raw| => DropReturn(raw[i]))
  }

  function Lines(content: seq<byte>): seq<seq<byte>> {
    DropReturns(RawLines(content))
  }

  /** The scanner gives up on a line of this many bytes: the larger of its initial buffer and twice the cap. */
  function MaxToken(cap: nat): nat {
    if 2 * cap > SCAN_BUFFER then 2 * cap else SCAN_BUFFER
  }

  /** Lines before the first one that does not fit the scanner's buffer, and whether there is such a line. */
  function Scanned(raw: seq<seq<byte>>, maxToken: nat): (seq<seq<byte>>, bool) {
    if raw == [] then ([], false)
    else if |raw[0]| >= maxToken then ([], true)
    else
      var (lines, tooLong) := Scanned(raw[1..], maxToken);
      ([DropReturn(raw[0])] + lines, tooLong)
  }

  predicate LinesFit(raw: seq<seq<byte>>, maxToken: nat) {
    forall i :: 0 <= i < |raw| ==> |raw[i]| < maxToken
  }

  lemma DropReturnsCons(line: seq<byte>, rest: seq<seq<byte>>)
    ensures DropReturns([line] + rest) == [DropReturn(line)] + DropReturns(rest)
    ensures DropReturns([line]) == [DropReturn(line)]
  {
    hide DropReturn;
  }

  lemma LinesFitCons(line: seq<byte>, rest: seq<seq<byte>>, maxToken: nat)
    ensures LinesFit([line] + rest, maxToken) <==> |line| < maxToken && LinesFit(rest, maxToken)
  {
    var all := [line] + rest;
    assert all[0] == line && forall i :: 0 < i < |all| ==> all[i] == rest[i - 1];
    assert forall i :: 0 <= i < |rest| ==> rest[i] == all[i + 1];
  }

  lemma {:induction false} ScannedAll(raw: seq<seq<byte>>, maxToken: nat)
    ensures Scanned(raw, maxToken).1 <==> !LinesFit(raw, maxToken)
    ensures !Scanned(raw, maxToken).1 ==> Scanned(raw, maxToken).0 == DropReturns(raw)
  {
    hide DropReturn, DropReturns;
    if raw == [] {
      assert DropReturns(raw) == [];
    } else {
      ScannedAll(raw[1..], maxToken);
      assert raw == [raw[0]] + raw[1..];
      LinesFitCons(raw[0], raw[1..], maxToken);
      DropReturnsCons(raw[0], raw[1..]);
    }
  }

  // ---------- the chunker on lines ----------

  /** A chunk before trimming: a flushed buffer, or the first cap bytes of an over-long line. */
  datatype Piece = Flushed(bytes: seq<byte>) | Head(bytes: seq<byte>)

  datatype Acc = Acc(pieces: seq<Piece>, buf: seq<byte>)

  function FlushAcc(acc: Acc): Acc {
    if acc.buf == [] then acc else Acc(acc.pieces + [Flushed(acc.buf)], [])
  }

  function FlushIfFull(acc: Acc, cap: nat): Acc {
    if |acc.buf| >= cap then FlushAcc(acc) else acc
  }

  /** An over-long line: flush, emit the head, and start the buffer with the tail. */
  function LongLine(acc: Acc, line: seq<byte>, cap: nat, copies: nat): Acc
    requires |line| > cap
  {
    Acc(FlushAcc(acc).pieces + [Head(line[..cap])], Repeat(line[cap..] + [NEWLINE], copies))
  }

  function ShortLine(acc: Acc, line: seq<byte>): Acc {
    acc.(buf := acc.buf + (line + [NEWLINE]))
  }

  function AddLine(acc: Acc, line: seq<byte>, cap: nat, copies: nat): Acc {
    if line == [] then FlushAcc(acc)
    else if |line| > cap then FlushIfFull(LongLine(acc, line, cap, copies), cap)
    else FlushIfFull(ShortLine(acc, line), cap)
  }

  function AddLines(lines: seq<seq<byte>>, cap: nat, copies: nat): Acc {
    if lines == [] then Acc([], [])
    else AddLine(AddLines(lines[..|lines| - 1], cap, copies), lines[|lines| - 1], cap, copies)
  }

  /** The pieces of a file; the code as written keeps two copies of an over-long line's tail. */
  function Pieces(lines: seq<seq<byte>>, cap: nat, copies: nat): seq<Piece> {
    FlushAcc(AddLines(lines, cap, copies)).pieces
  }

  function Text(p: Piece): seq<byte> {
    if p.Flushed? then TrimSpace(p.bytes) else p.bytes
  }

  /** Rows are numbered by their position. */
  function Rows(pieces: seq<Piece>): (rows: seq<ChunkRow>)
    ensures |rows| == |pieces|
    ensures forall i :: 0 <= i < |rows| ==> rows[i] == ChunkRow(Text(pieces[i]), "DocumentChunk", i)
  {
    seq(|pieces|, i requires 0 <= i < |pieces| => ChunkRow(Text(pieces[i]), "DocumentChunk", i))
  }

  /** The variables that the scan loop shares with its flush closure. */
  class Builder {
    var rows: seq<ChunkRow>
    var buf: seq<byte>
    var idx: nat

    constructor ()
      ensures Represents(Acc([], []))
    {
      rows, buf, idx := [], [], 0;
    }

    ghost predicate Represents(acc: Acc)
      reads this
    {
      rows == Rows(acc.pieces) && buf == acc.buf && idx == |acc.pieces|
    }

    method Append(text: seq<byte>)
      modifies this
      ensures rows == old(rows) + [ChunkRow(text, "DocumentChunk", old(idx))]
      ensures idx == old(idx) + 1 && buf == old(buf)
    {
      rows := rows + [ChunkRow(text, "DocumentChunk", idx)];
      idx := idx + 1;
    }

    method FlushBuf(ghost acc: Acc)
      requires Represents(acc)
      modifies this
      ensures Represents(FlushAcc(acc))
    {
      if |buf| == 0 {
        return;
      }
      Append(TrimSpace(buf));
      buf := [];
    }

    method Scan(line: seq<byte>, cap: nat, ghost acc: Acc)
      requires Represents(acc)
      modifies this
      ensures Represents(AddLine(acc, line, cap, TAIL_WRITES))
    {
      if line == [] {
        FlushBuf(acc);
        return;
      }
      var rest := line;
      ghost var now := acc;
      if |rest| > cap {
        FlushBuf(now);
        now := FlushAcc(now);
        Append(rest[..cap]);
        now := now.(pieces := now.pieces + [Head(rest[..cap])]);
        rest := rest[cap..];
        buf := buf + (rest + [NEWLINE]);
      }
      buf := buf + (rest + [NEWLINE]);
      now := now.(buf := buf);
      if |line| > cap {
        ghost var tail := line[cap..] + [NEWLINE];
        RepeatTwice(tail);
        assert buf == Repeat(tail, 2);
      } else {
        assert buf == acc.buf + (line + [NEWLINE]);
      }
      assert AddLine(acc, line, cap, TAIL_WRITES) == FlushIfFull(now, cap);
      if |buf| >= cap {
        FlushBuf(now);
      }
    }
  }

  /** A file that is valid UTF-8 and whose lines fit the scanner yields the rows of its pieces. */
  method Chunk(content: seq<byte>, maxChunkBytes: int) returns (r: Result)
    ensures var cap := if maxChunkBytes <= 0 then 1500 else maxChunkBytes;
      && (r.Ok? <==>
            (content == [] ||
             (Valid(content) && LinesFit(RawLines(content), if 2 * cap > 65536 then 2 * cap else 65536))))
      && (r.Ok? ==> r.rows == Rows(Pieces(Lines(content), cap, 2)))
    ensures r.Err? ==> r.error == (if Valid(content) then LineTooLong else NotUtf8)
  {
    if |content| == 0 {
      return Ok([]);
    }
    var cap := maxChunkBytes;
    if cap <= 0 {
      cap := DEFAULT_CAP;
    }
    if !Valid(content) {
      return Err(NotUtf8);
    }
    var (lines, tooLong) := Scanned(RawLines(content), MaxToken(cap));
    ScannedAll(RawLines(content), MaxToken(cap));
    var b := new Builder();
    for i := 0 to |lines|
      invariant b.Represents(AddLines(lines[..i], cap, TAIL_WRITES))
    {
      assert lines[..i + 1][..i] == lines[..i];
      b.Scan(lines[i], cap, AddLines(lines[..i], cap, TAIL_WRITES));
    }
    assert lines[..|lines|] == lines;
    b.FlushBuf(AddLines(lines, cap, TAIL_WRITES));
    if tooLong {
      return Err(LineTooLong);
    }
    r := Ok(b.rows);
  }
}
