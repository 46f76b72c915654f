/** What the aws-chunked decoder makes of every stream, well formed or not: a grammar of streams
    and of their ends, told without the decoder, that the decoder meets exactly. */
module ChunkStreams {
  import opened Text
  import opened Numerals
  import opened ChunkedReader

  // ---------- header lines ----------

  /** A header line up to its newline: a hexadecimal number between blanks, then nothing or a
      semicolon and anything. */
  ghost predicate AnnouncedBy(line: string, left: string, number: string, right: string, ext: string, size: int) {
    && line == left + number + right + ext
    && AllSpaces(left) && AllSpaces(right) && Numeral(number, 16, size)
    && (ext == "" || ext[0] == ';')
  }

  ghost predicate Announces(line: string, size: int) {
    exists left, number, right, ext :: AnnouncedBy(line, left, number, right, ext, size)
  }

  lemma NoSemicolon(left: string, number: string, right: string, size: int)
    requires AllSpaces(left) && AllSpaces(right) && Numeral(number, 16, size)
    ensures ';' !in left + number + right
  {
    NumeralIsPlain(number, 16, size);
    assert !IsSpace(';');
  }

  /** A header's size is read exactly as it is announced. */
  lemma HeaderSizeIff(line: Bytes, size: int)
    ensures HeaderSize(line) == Some(size) <==> Announces(line, size)
  {
    if HeaderSize(line) == Some(size) {
      var semi := Index(line, ";");
      var front := if semi < 0 then line else line[..semi];
      var left, right := TrimParts(front);
      ParseIntIff(TrimSpace(front), 16, size);
      assert AnnouncedBy(line, left, TrimSpace(front), right, line[|front|..], size) by {
        assert line == front + line[|front|..];
        if semi >= 0 {
          assert line[semi..semi + 1] == ";";
        }
      }
    }
    if left, number, right, ext :| AnnouncedBy(line, left, number, right, ext, size) {
      NoSemicolon(left, number, right, size);
      HeaderFront(line, left + number + right, ext);
      NumeralIsPlain(number, 16, size);
      TrimToken(left, number, right);
      ParseIntIff(number, 16, size);
    }
  }

  lemma HeaderFront(line: string, front: string, ext: string)
    requires line == front + ext && ';' !in front && (ext == "" || ext[0] == ';')
    ensures (if Index(line, ";") < 0 then line else line[..Index(line, ";")]) == front
  {
    if ext == "" {
      NoIndexOfChar(line, ';');
    } else {
      assert line == front + [';'] + ext[1..];
      IndexOfChar(front, ';', ext[1..]);
    }
  }

  ghost predicate IsLine(line: Bytes) {
    line != [] && line[|line| - 1] == '\n' && '\n' !in line[..|line| - 1]
  }

  // ---------- streams ----------

  /** A complete chunk as it is sent; any two bytes may end it. */
  datatype Chunk = Chunk(line: Bytes, data: Bytes, end: Bytes)

  ghost predicate Complete(c: Chunk) {
    IsLine(c.line) && c.data != [] && |c.end| == 2 && Announces(c.line, |c.data|)
  }

  ghost predicate AllComplete(cs: seq<Chunk>) {
    forall i :: 0 <= i < |cs| ==> Complete(cs[i])
  }

  function Sent(c: Chunk): Bytes {
    c.line + c.data + c.end
  }

  function Wire(cs: seq<Chunk>): Bytes {
    if cs == [] then [] else Sent(cs[0]) + Wire(cs[1..])
  }

  function Data(cs: seq<Chunk>): Bytes {
    if cs == [] then [] else cs[0].data + Data(cs[1..])
  }

  /** How a stream ends after a complete header that no complete chunk follows: the payload that is
      still there, and the error. */
  ghost predicate EndsAfter(line: Bytes, rest: Bytes, tail: Error, last: Bytes, end: Error) {
    || (end == Malformed && last == [] && forall size :: !Announces(line, size))
    || (end == EOF && last == [] && Announces(line, 0))
    || (end == Panicked && last == [] && exists size :: size < 0 && Announces(line, size))
    || (exists size :: Announces(line, size) && EndsIn(size, rest, tail, last, end))
  }

  /** Too few bytes for a chunk of that size: the source's own end, but an end of file within the
      data is unexpected. */
  ghost predicate EndsIn(size: int, rest: Bytes, tail: Error, last: Bytes, end: Error) {
    && 0 < size && |rest| < size + 2
    && last == (if |rest| < size then rest else rest[..size])
    && end == (if |rest| < size && tail == EOF then UnexpectedEOF else tail)
  }

  /** How a stream ends in which no complete chunk is left. */
  ghost predicate Ends(rest: Bytes, tail: Error, last: Bytes, end: Error) {
    || ('\n' !in rest && last == [] && end == tail)
    || (exists line, after :: rest == line + after && IsLine(line) && EndsAfter(line, after, tail, last, end))
  }

  ghost predicate Splits(stream: Bytes, cs: seq<Chunk>, rest: Bytes) {
    AllComplete(cs) && stream == Wire(cs) + rest
  }

  /** The stream is these complete chunks and this rest, which make up the payload. */
  ghost predicate ReadsAs(stream: Bytes, tail: Error, payload: Bytes, end: Error, cs: seq<Chunk>, rest: Bytes, last: Bytes) {
    Splits(stream, cs, rest) && Ends(rest, tail, last, end) && payload == Data(cs) + last
  }

  ghost predicate Reads(stream: Bytes, tail: Error, payload: Bytes, end: Error) {
    exists cs, rest, last :: ReadsAs(stream, tail, payload, end, cs, rest, last)
  }

  // ---------- the decoder meets the grammar ----------

  lemma LineSplits(line: Bytes, rest: Bytes)
    requires IsLine(line)
    ensures NewlineAt(line + rest) == Some(|line| - 1)
  {
    var s := line + rest;
    assert forall j :: 0 <= j < |line| - 1 ==> s[j] == line[..|line| - 1][j];
    NewlineIs(s, |line| - 1);
  }

  /** Decoding from a header line on. */
  lemma DecodeLine(line: Bytes, rest: Bytes, tail: Error)
    requires IsLine(line)
    ensures DecodeHead(line + rest, tail) ==
            match HeaderSize(line)
            case None => Decoded([], Malformed)
            case Some(size) =>
              if size == 0 then Decoded([], EOF) else if size < 0 then Decoded([], Panicked)
              else Decode(rest, size, tail)
  {
    LineSplits(line, rest);
    assert (line + rest)[..|line|] == line && (line + rest)[|line|..] == rest;
  }

  lemma DecodeChunk(c: Chunk, rest: Bytes, tail: Error)
    requires Complete(c)
    ensures DecodeHead(Sent(c) + rest, tail) == Ahead(c.data, DecodeHead(rest, tail))
  {
    var body := c.data + c.end + rest;
    assert Sent(c) + rest == c.line + body;
    HeaderSizeIff(c.line, |c.data|);
    DecodeLine(c.line, body, tail);
    assert body[..|c.data|] == c.data && body[|c.data| + 2..] == rest;
  }

  lemma DecodeAfterLine(line: Bytes, rest: Bytes, tail: Error, last: Bytes, end: Error)
    requires IsLine(line) && EndsAfter(line, rest, tail, last, end)
    ensures DecodeHead(line + rest, tail) == Decoded(last, end)
  {
    DecodeLine(line, rest, tail);
    if forall size :: !Announces(line, size) {
      if HeaderSize(line).Some? {
        HeaderSizeIff(line, HeaderSize(line).value);
      }
    } else {
      var any :| Announces(line, any);
      HeaderSizeIff(line, any);
      OneSize(line, any);
    }
  }

  lemma OneSize(line: Bytes, size: int)
    requires Announces(line, size)
    ensures forall other :: Announces(line, other) ==> other == size
  {
    HeaderSizeIff(line, size);
    forall other | Announces(line, other) ensures other == size {
      HeaderSizeIff(line, other);
    }
  }

  lemma DecodeEnd(rest: Bytes, tail: Error, last: Bytes, end: Error)
    requires Ends(rest, tail, last, end)
    ensures DecodeHead(rest, tail) == Decoded(last, end)
  {
    if !('\n' !in rest && last == [] && end == tail) {
      var line, after :| rest == line + after && IsLine(line) && EndsAfter(line, after, tail, last, end);
      DecodeAfterLine(line, after, tail, last, end);
    }
  }

  lemma {:induction false} DecodeSplit(cs: seq<Chunk>, rest: Bytes, tail: Error)
    requires AllComplete(cs)
    ensures DecodeHead(Wire(cs) + rest, tail) == Ahead(Data(cs), DecodeHead(rest, tail))
    decreases |cs|
  {
    if cs == [] {
      assert Wire(cs) + rest == rest;
    } else {
      var more := Wire(cs[1..]) + rest;
      assert Wire(cs) + rest == Sent(cs[0]) + more;
      DecodeChunk(cs[0], more, tail);
      DecodeSplit(cs[1..], rest, tail);
      AheadTwice(cs[0].data, Data(cs[1..]), DecodeHead(rest, tail));
    }
  }

  lemma FirstLine(stream: Bytes) returns (line: Bytes, rest: Bytes)
    requires '\n' in stream
    ensures IsLine(line) && stream == line + rest
  {
    var i := NewlineAt(stream).value;
    line, rest := stream[..i + 1], stream[i + 1..];
    assert line[..|line| - 1] == stream[..i];
  }

  /** A stream that does not begin with a complete chunk has ended. */
  lemma EndsOrContinues(stream: Bytes, tail: Error) returns (c: Option<Chunk>, rest: Bytes, d: Decoded)
    ensures c.Some? ==> Complete(c.value) && stream == Sent(c.value) + rest
    ensures c.None? ==> Ends(stream, tail, d.payload, d.end)
  {
    c, rest, d := None, [], Decoded([], tail);
    if '\n' in stream {
      var line, after := FirstLine(stream);
      if size :| Announces(line, size) {
        if 0 < size <= |after| - 2 {
          c, rest := Some(Chunk(line, after[..size], after[size..size + 2])), after[size + 2..];
        } else {
          d := EndedAfter(line, after, tail, size);
        }
      } else {
        d := Decoded([], Malformed);
        assert EndsAfter(line, after, tail, d.payload, d.end);
      }
    }
  }

  lemma EndedAfter(line: Bytes, after: Bytes, tail: Error, size: int) returns (d: Decoded)
    requires IsLine(line) && Announces(line, size) && !(0 < size <= |after| - 2)
    ensures EndsAfter(line, after, tail, d.payload, d.end)
  {
    if size == 0 {
      d := Decoded([], EOF);
    } else if size < 0 {
      d := Decoded([], Panicked);
    } else {
      d := Decoded(if |after| < size then after else after[..size],
                   if |after| < size && tail == EOF then UnexpectedEOF else tail);
      assert EndsIn(size, after, tail, d.payload, d.end);
    }
  }

  lemma SplitsNext(c: Chunk, cs: seq<Chunk>, rest: Bytes, left: Bytes)
    requires Complete(c) && Splits(rest, cs, left)
    ensures Splits(Sent(c) + rest, [c] + cs, left) && Data([c] + cs) == c.data + Data(cs)
  {
    assert ([c] + cs)[1..] == cs;
    Regroup(Sent(c), Wire(cs), left);
  }

  lemma ReadsAsNext(c: Chunk, stream: Bytes, tail: Error, payload: Bytes, end: Error, cs: seq<Chunk>, rest: Bytes, last: Bytes)
    requires Complete(c) && ReadsAs(stream, tail, payload, end, cs, rest, last)
    ensures ReadsAs(Sent(c) + stream, tail, c.data + payload, end, [c] + cs, rest, last)
  {
    SplitsNext(c, cs, stream, rest);
    Regroup(c.data, Data(cs), last);
  }

  lemma ReadsNext(c: Chunk, stream: Bytes, tail: Error, payload: Bytes, end: Error)
    requires Complete(c) && Reads(stream, tail, payload, end)
    ensures Reads(Sent(c) + stream, tail, c.data + payload, end)
  {
    var cs, rest, last :| ReadsAs(stream, tail, payload, end, cs, rest, last);
    ReadsAsNext(c, stream, tail, payload, end, cs, rest, last);
  }

  lemma {:induction false} EveryStreamReads(stream: Bytes, tail: Error) returns (d: Decoded)
    ensures Reads(stream, tail, d.payload, d.end)
    decreases |stream|
  {
    var c, rest, ended := EndsOrContinues(stream, tail);
    if c.None? {
      d := ended;
      assert ReadsAs(stream, tail, d.payload, d.end, [], stream, d.payload);
    } else {
      var more := EveryStreamReads(rest, tail);
      d := Ahead(c.value.data, more);
      ReadsNext(c.value, rest, tail, more.payload, more.end);
    }
  }

  /** Every stream has exactly one reading, and that is what decoding gives: the data of its complete
      chunks and what is left at its end, with a malformed header, a zero or a negative size, a cut
      inside the data, a cut elsewhere and a failing source each told by its own error. */
  lemma DecodeIff(stream: Bytes, tail: Error, payload: Bytes, end: Error)
    ensures DecodeHead(stream, tail) == Decoded(payload, end) <==> Reads(stream, tail, payload, end)
  {
    ReadsAreDecoded(stream, tail, payload, end);
    var d := EveryStreamReads(stream, tail);
    ReadsAreDecoded(stream, tail, d.payload, d.end);
  }

  lemma ReadsAreDecoded(stream: Bytes, tail: Error, payload: Bytes, end: Error)
    ensures Reads(stream, tail, payload, end) ==> DecodeHead(stream, tail) == Decoded(payload, end)
  {
    if cs, rest, last :| ReadsAs(stream, tail, payload, end, cs, rest, last) {
      DecodeSplit(cs, rest, tail);
      DecodeEnd(rest, tail, last, end);
    }
  }
}
