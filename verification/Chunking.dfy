/** How the provider's client cuts a payload into Merkle leaves. */
module Chunking {
  import opened Primitives

  const MAX_CHUNK_LEN: nat := 1024
  const LF: Byte := 10
  const CR: Byte := 13

  /** `CHUNK_MODE`: anything but "rows" selects bytes. */
  datatype ChunkMode = ByteMode | RowMode

  /** What both modes promise about their output: something to hash, every leaf within the on-chain bound. */
  predicate WellChunked(chunks: seq<Bytes>) {
    && chunks != []
    && forall i | 0 <= i < |chunks| :: 1 <= |chunks[i]| <= MAX_CHUNK_LEN
  }

  // --------------------------------------------------------------------- byte mode

  /** `payload.chunks(MAX_CHUNK_LEN)`. */
  function ByteChunks(payload: Bytes): seq<Bytes> {
    if |payload| <= MAX_CHUNK_LEN then (if payload == [] then [] else [payload])
    else [payload[..MAX_CHUNK_LEN]] + ByteChunks(payload[MAX_CHUNK_LEN..])
  }

  function Concatenated(chunks: seq<Bytes>): Bytes {
    if chunks == [] then [] else chunks[0] + Concatenated(chunks[1..])
  }

  /** Byte mode loses nothing, fills every chunk but the last, and uses ceil(len / 1024) of them. */
  lemma {:induction false} ByteChunksFaithful(payload: Bytes)
    ensures var chunks := ByteChunks(payload);
            && Concatenated(chunks) == payload
            && |chunks| == (|payload| + MAX_CHUNK_LEN - 1) / MAX_CHUNK_LEN
            && (payload != [] ==> WellChunked(chunks))
            && forall i | 0 <= i < |chunks| - 1 :: |chunks[i]| == MAX_CHUNK_LEN
  {
    if |payload| > MAX_CHUNK_LEN {
      ByteChunksFaithful(payload[MAX_CHUNK_LEN..]);
    }
  }

  // ---------------------------------------------------------------------- row mode

  /** `payload.split(|&b| b == b'\n')`: always at least one piece. */
  function SplitLines(payload: Bytes): (r: seq<Bytes>)
    ensures r != []
  {
    if payload == [] then [[]]
    else
      var rest := SplitLines(payload[1..]);
      if payload[0] == LF then [[]] + rest else [[payload[0]] + rest[0]] + rest[1..]
  }

  function JoinLines(lines: seq<Bytes>): Bytes
    requires lines != []
  {
    if |lines| == 1 then lines[0] else lines[0] + [LF] + JoinLines(lines[1..])
  }

  predicate LineFree(lines: seq<Bytes>) {
    forall i | 0 <= i < |lines| :: LF !in lines[i]
  }

  /** Splitting is undone by joining, and no piece keeps a line feed. */
  lemma {:induction false} JoinUndoesSplit(payload: Bytes)
    ensures LineFree(SplitLines(payload))
    ensures JoinLines(SplitLines(payload)) == payload
  {
    if payload != [] {
      JoinUndoesSplit(payload[1..]);
      var rest := SplitLines(payload[1..]);
      if payload[0] != LF {
        var head := [[payload[0]] + rest[0]];
        assert (head + rest[1..])[1..] == rest[1..];
        assert JoinLines(head + rest[1..]) == [payload[0]] + JoinLines(rest);
      } else {
        assert ([[]] + rest)[1..] == rest;
      }
    }
  }

  lemma {:induction false} SplitFirstLine(line: Bytes, tail: Bytes)
    requires LF !in line
    ensures SplitLines(line + [LF] + tail) == [line] + SplitLines(tail)
  {
    var whole := line + [LF] + tail;
    if line == [] {
      assert whole[1..] == tail;
    } else {
      SplitFirstLine(line[1..], tail);
      assert whole[1..] == line[1..] + [LF] + tail;
      assert [line[0]] + line[1..] == line;
    }
  }

  lemma {:induction false} SplitSingleLine(line: Bytes)
    requires LF !in line
    ensures SplitLines(line) == [line]
  {
    if line != [] {
      SplitSingleLine(line[1..]);
      assert [line[0]] + line[1..] == line;
    }
  }

  /** Joining is undone by splitting, so the pieces are the only ones possible. */
  lemma {:induction false} SplitUndoesJoin(lines: seq<Bytes>)
    requires lines != [] && LineFree(lines)
    ensures SplitLines(JoinLines(lines)) == lines
  {
    if |lines| == 1 {
      SplitSingleLine(lines[0]);
    } else {
      SplitUndoesJoin(lines[1..]);
      SplitFirstLine(lines[0], JoinLines(lines[1..]));
    }
  }

  /** One trailing carriage return is dropped. */
  function StripCR(line: Bytes): Bytes {
    if line != [] && line[|line| - 1] == CR then line[..|line| - 1] else line
  }

  /** The stripped lines that are not empty, in order. */
  function Kept(lines: seq<Bytes>): seq<Bytes> {
    if lines == [] then []
    else
      var line := StripCR(lines[|lines| - 1]);
      Kept(lines[..|lines| - 1]) + if line == [] then [] else [line]
  }

  predicate RowsFit(lines: seq<Bytes>) {
    forall i | 0 <= i < |lines| :: |StripCR(lines[i])| <= MAX_CHUNK_LEN
  }

  /** Split on LF, strip one CR, drop empties; nothing when a row is too long or none is left. */
  function RowChunks(payload: Bytes): Option<seq<Bytes>> {
    var lines := SplitLines(payload);
    if !RowsFit(lines) || Kept(lines) == [] then None else Some(Kept(lines))
  }

  lemma KeptNext(lines: seq<Bytes>, i: nat)
    requires i < |lines|
    ensures var line := StripCR(lines[i]);
            && Kept(lines[..i + 1]) == Kept(lines[..i]) + (if line == [] then [] else [line])
            && (RowsFit(lines[..i + 1]) <==> RowsFit(lines[..i]) && |line| <= MAX_CHUNK_LEN)
            && (RowsFit(lines) ==> |line| <= MAX_CHUNK_LEN)
  {
    var next := lines[..i + 1];
    assert next[..i] == lines[..i] && next[i] == lines[i];
    assert forall k | 0 <= k < i :: next[k] == lines[..i][k];
  }

  /** The row loop of `register_commitment`. */
  method SplitRows(payload: Bytes) returns (r: Option<seq<Bytes>>)
    ensures r == RowChunks(payload)
  {
    var lines := SplitLines(payload);
    var out: seq<Bytes> := [];
    for i := 0 to |lines|
      invariant out == Kept(lines[..i])
      invariant RowsFit(lines[..i])
    {
      KeptNext(lines, i);
      var line := lines[i];
      if line != [] && line[|line| - 1] == CR {
        line := line[..|line| - 1];
      }
      if line == [] {
        continue;
      }
      if |line| > MAX_CHUNK_LEN {
        return None;
      }
      out := out + [line];
    }
    assert lines[..|lines|] == lines;
    if out == [] {
      return None;
    }
    return Some(out);
  }

  /** Rows as the row mode can produce them. */
  predicate ProperRows(rows: seq<Bytes>) {
    WellChunked(rows) && LineFree(rows)
  }

  lemma {:induction false} KeptLines(lines: seq<Bytes>)
    requires LineFree(lines) && RowsFit(lines)
    ensures LineFree(Kept(lines))
    ensures forall i | 0 <= i < |Kept(lines)| :: 1 <= |Kept(lines)[i]| <= MAX_CHUNK_LEN
  {
    if lines != [] {
      var init := lines[..|lines| - 1];
      KeptLines(init);
      assert |StripCR(lines[|lines| - 1])| <= MAX_CHUNK_LEN;
    }
  }

  /** Whatever row mode returns is a proper list of rows. */
  lemma RowsAreProper(payload: Bytes)
    ensures RowChunks(payload).Some? ==> ProperRows(RowChunks(payload).value)
  {
    JoinUndoesSplit(payload);
    if RowChunks(payload).Some? {
      KeptLines(SplitLines(payload));
    }
  }

  /** Rows written out one by one, each ended by CR LF. */
  function Printed(rows: seq<Bytes>): Bytes {
    if rows == [] then [] else rows[0] + [CR] + [LF] + Printed(rows[1..])
  }

  function Terminated(rows: seq<Bytes>): seq<Bytes> {
    seq(|rows|, i requires 0 <= i < |rows| => rows[i] + [CR])
  }

  lemma {:induction false} PrintedLines(rows: seq<Bytes>)
    requires LineFree(rows)
    ensures SplitLines(Printed(rows)) == Terminated(rows) + [[]]
  {
    if rows != [] {
      PrintedLines(rows[1..]);
      SplitFirstLine(rows[0] + [CR], Printed(rows[1..]));
      assert Terminated(rows) == [rows[0] + [CR]] + Terminated(rows[1..]);
    }
  }

  lemma {:induction false} KeptTerminated(rows: seq<Bytes>)
    requires forall i | 0 <= i < |rows| :: rows[i] != []
    ensures Kept(Terminated(rows)) == rows
  {
    if rows != [] {
      var n := |rows| - 1;
      KeptTerminated(rows[..n]);
      assert Terminated(rows)[..n] == Terminated(rows[..n]);
      assert rows == rows[..n] + [rows[n]];
    }
  }

  /** Printing rows and chunking again gives the same rows. */
  lemma RowsRoundTrip(rows: seq<Bytes>)
    requires ProperRows(rows)
    ensures RowChunks(Printed(rows)) == Some(rows)
  {
    var lines := Terminated(rows) + [[]];
    PrintedLines(rows);
    KeptTerminated(rows);
    assert lines[..|lines| - 1] == Terminated(rows);
    assert rows + [] == rows;
    assert Kept(lines) == rows;
    assert SplitLines(Printed(rows)) == lines;
    forall i | 0 <= i < |lines| ensures |StripCR(lines[i])| <= MAX_CHUNK_LEN {
      assert i < |rows| ==> lines[i] == rows[i] + [CR] && StripCR(lines[i]) == rows[i];
    }
  }

  /** Row mode is stable: re-chunking the printed output of any payload returns that output. */
  lemma RechunkingIsStable(payload: Bytes)
    requires RowChunks(payload).Some?
    ensures RowChunks(Printed(RowChunks(payload).value)) == RowChunks(payload)
  {
    RowsAreProper(payload);
    RowsRoundTrip(RowChunks(payload).value);
  }

  // ----------------------------------------------------------------- either line ending

  /** A line of a text as a person reads it: a row, or nothing, with or without a carriage return at its end. */
  datatype Line = Row(bytes: Bytes, cr: bool) | Blank(cr: bool)

  function Text(line: Line): Bytes {
    (if line.Row? then line.bytes else []) + if line.cr then [CR] else []
  }

  /** A row is not empty, holds no line feed, and ends in a carriage return of its own only before another one. */
  predicate Readable(line: Line) {
    line.Row? ==>
      line.bytes != [] && LF !in line.bytes && (line.cr || line.bytes[|line.bytes| - 1] != CR)
  }

  function Texts(lines: seq<Line>): (texts: seq<Bytes>)
    ensures |texts| == |lines|
  {
    seq(|lines|, i requires 0 <= i < |lines| => Text(lines[i]))
  }

  function RowsOf(lines: seq<Line>): seq<Bytes> {
    if lines == [] then []
    else
      var last := lines[|lines| - 1];
      RowsOf(lines[..|lines| - 1]) + if last.Row? then [last.bytes] else []
  }

  predicate AllReadable(lines: seq<Line>) {
    forall i | 0 <= i < |lines| :: Readable(lines[i])
  }

  predicate Oversized(line: Line) {
    line.Row? && |line.bytes| > 1024
  }

  lemma ReadsAsRow(line: Line)
    requires Readable(line)
    ensures LF !in Text(line)
    ensures StripCR(Text(line)) == if line.Row? then line.bytes else []
  {
    var text := Text(line);
    if line.cr {
      assert text[..|text| - 1] == if line.Row? then line.bytes else [];
    } else if line.Row? {
      assert text == line.bytes;
    }
  }

  lemma ReadLineByLine(lines: seq<Line>)
    requires AllReadable(lines)
    ensures LineFree(Texts(lines))
    ensures RowsFit(Texts(lines)) <==> forall i | 0 <= i < |lines| :: !Oversized(lines[i])
  {
    var texts := Texts(lines);
    hide StripCR, Text;
    forall i | 0 <= i < |lines|
      ensures LF !in texts[i] && (|StripCR(texts[i])| <= MAX_CHUNK_LEN <==> !Oversized(lines[i]))
    {
      ReadsAsRow(lines[i]);
    }
    if RowsFit(texts) {
      forall i | 0 <= i < |lines| ensures !Oversized(lines[i]) {
        assert |StripCR(texts[i])| <= MAX_CHUNK_LEN;
      }
    }
  }

  lemma {:induction false} KeptAreRows(lines: seq<Line>)
    requires AllReadable(lines)
    ensures Kept(Texts(lines)) == RowsOf(lines)
  {
    if lines != [] {
      var n := |lines| - 1;
      hide StripCR, Text;
      KeptAreRows(lines[..n]);
      ReadsAsRow(lines[n]);
      assert Texts(lines)[..n] == Texts(lines[..n]);
    }
  }

  /**
   Row mode on any text, whichever way each line ends and wherever blank lines
   stand: refused if a row is over 1024 bytes or there is no row, and otherwise
   exactly the rows.
   */
  lemma TextIsReadByRows(lines: seq<Line>)
    requires lines != [] && AllReadable(lines)
    ensures RowChunks(JoinLines(Texts(lines)))
            == if (exists i | 0 <= i < |lines| :: Oversized(lines[i])) || RowsOf(lines) == [] then None
               else Some(RowsOf(lines))
  {
    ReadLineByLine(lines);
    KeptAreRows(lines);
    SplitUndoesJoin(Texts(lines));
  }

  function ReadLine(text: Bytes): (line: Line)
    requires LF !in text
    ensures Readable(line) && Text(line) == text
  {
    var cr := text != [] && text[|text| - 1] == CR;
    var bytes := if cr then text[..|text| - 1] else text;
    if bytes == [] then Blank(cr) else Row(bytes, cr)
  }

  /** Every payload is such a text, so nothing is left unsaid about row mode. */
  lemma EveryPayloadIsText(payload: Bytes) returns (lines: seq<Line>)
    ensures lines != [] && AllReadable(lines) && JoinLines(Texts(lines)) == payload
  {
    JoinUndoesSplit(payload);
    var texts := SplitLines(payload);
    hide Readable, Text;
    lines := seq(|texts|, i requires 0 <= i < |texts| => ReadLine(texts[i]));
    assert Texts(lines) == texts;
  }

  // ------------------------------------------------------------------------ client

  /** The chunk list `register_commitment` hashes, or nothing for `EmptyPayload`. */
  function Chunked(mode: ChunkMode, payload: Bytes): Option<seq<Bytes>> {
    if payload == [] then None
    else if mode.RowMode? then RowChunks(payload)
    else Some(ByteChunks(payload))
  }

  lemma ChunkedIsWellChunked(mode: ChunkMode, payload: Bytes)
    ensures Chunked(mode, payload).Some? ==> WellChunked(Chunked(mode, payload).value)
  {
    ByteChunksFaithful(payload);
    RowsAreProper(payload);
  }

  /** Byte mode cuts the payload itself; row mode reads it as text; only the empty payload is refused in both. */
  lemma ModesDiffer(payload: Bytes, lines: seq<Line>)
    requires lines != [] && AllReadable(lines) && JoinLines(Texts(lines)) == payload != []
    ensures Chunked(ByteMode, payload).Some? && Concatenated(Chunked(ByteMode, payload).value) == payload
    ensures Chunked(RowMode, payload).Some? ==> Chunked(RowMode, payload).value == RowsOf(lines)
    ensures Chunked(RowMode, payload).None? <==>
              (exists i | 0 <= i < |lines| :: Oversized(lines[i])) || RowsOf(lines) == []
    ensures Chunked(ByteMode, []).None? && Chunked(RowMode, []).None?
  {
    ByteChunksFaithful(payload);
    TextIsReadByRows(lines);
  }
}
