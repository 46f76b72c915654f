/** The aws-chunked body decoder.  A class reads a buffered source step by step; its meaning is
    `Decode`, the payload and final error of a whole stream, of which every `Read` hands out a
    piece.  `Decode` is then proved to undo the chunk encoding. */
module ChunkedReader {
  import opened Text

  /** How a read ends.  `Panicked` is Go's slice-bounds panic. */
  datatype Error = EOF | UnexpectedEOF | Malformed | SourceError | Panicked

  // ---------- the buffered source ----------

  /** A `bufio.Reader`: the bytes still to come, and how the source ends after them. */
  class BufferedSource {
    var rest: Bytes
    const tail: Error

    constructor (data: Bytes, tail: Error)
      requires tail == EOF || tail == SourceError
      ensures rest == data && this.tail == tail
    {
      rest := data;
      this.tail := tail;
    }

    /** Reads at most `n` bytes into the front of `p`: any positive number while bytes remain,
        possibly reporting the end of the source together with the last of them. */
    method Read(p: array<Byte>, n: nat) returns (got: nat, err: Option<Error>)
      requires n <= p.Length
      modifies this, p
      ensures got <= n && got <= old(|rest|)
      ensures p[..got] == old(rest)[..got]
      ensures forall k :: got <= k < p.Length ==> p[k] == old(p[k])
      ensures rest == old(rest)[got..]
      ensures n > 0 && old(rest) != [] ==> got > 0
      ensures err.None? || (err == Some(tail) && rest == [])
      ensures n > 0 && old(rest) == [] ==> err.Some?
    {
      if rest == [] {
        var early: bool := *;
        return 0, if n > 0 || early then Some(tail) else None;
      }
      var most := if n < |rest| then n else |rest|;
      got :| got <= most && (most > 0 ==> got > 0);
      for i := 0 to got
        invariant rest == old(rest)
        invariant forall k :: 0 <= k < i ==> p[k] == rest[k]
        invariant forall k :: i <= k < p.Length ==> p[k] == old(p[k])
      {
        p[i] := rest[i];
      }
      rest := rest[got..];
      var early: bool := *;
      err := if early && rest == [] then Some(tail) else None;
    }

    /** `ReadString('\n')`: up to and including the next newline, else everything and the error. */
    method ReadLine() returns (line: Bytes, err: Option<Error>)
      modifies this
      ensures match NewlineAt(old(rest)) {
                case None => line == old(rest) && rest == [] && err == Some(tail)
                case Some(i) => line == old(rest)[..i + 1] && rest == old(rest)[i + 1..] && err == None
              }
    {
      match NewlineAt(rest) {
        case None => line, rest, err := rest, [], Some(tail);
        case Some(i) => line, rest, err := rest[..i + 1], rest[i + 1..], None;
      }
    }

    method Discard(n: nat) returns (err: Option<Error>)
      modifies this
      ensures if n <= old(|rest|) then err == None && rest == old(rest)[n..]
              else err == Some(tail) && rest == []
    {
      if n <= |rest| {
        rest, err := rest[n..], None;
      } else {
        rest, err := [], Some(tail);
      }
    }
  }

  function NewlineAt(s: Bytes): (r: Option<nat>)
    ensures r.Some? ==> r.value < |s| && s[r.value] == '\n' && '\n' !in s[..r.value]
    ensures r.None? ==> '\n' !in s
  {
    if s == [] then None
    else if s[0] == '\n' then Some(0)
    else match NewlineAt(s[1..])
      case None => None
      case Some(i) =>
        assert s[..i + 1] == [s[0]] + s[1..][..i];
        Some(i + 1)
  }

  /** Chunk size announced by a header line: hexadecimal, up to the first semicolon. */
  function HeaderSize(line: Bytes): Option<int> {
    var semi := Index(line, ";");
    ParseInt(TrimSpace(if semi < 0 then line else line[..semi]), 16)
  }

  // ---------- the meaning of a stream ----------

  datatype Decoded = Decoded(payload: Bytes, end: Error)

  /** Payload and final error of the stream `rest`, whose first `left` bytes finish a chunk. */
  function Decode(rest: Bytes, left: nat, tail: Error): Decoded
    decreases |rest|, 1
  {
    if left == 0 then DecodeHead(rest, tail)
    else if |rest| < left then Decoded(rest, if tail == EOF then UnexpectedEOF else tail)
    else if |rest| < left + 2 then Decoded(rest[..left], tail)
    else Ahead(rest[..left], DecodeHead(rest[left + 2..], tail))
  }

  /** The same for a stream that starts with a chunk header. */
  function DecodeHead(rest: Bytes, tail: Error): Decoded
    decreases |rest|, 0
  {
    match NewlineAt(rest)
    case None => Decoded([], tail)
    case Some(i) =>
      match HeaderSize(rest[..i + 1])
      case None => Decoded([], Malformed)
      case Some(size) =>
        if size == 0 then Decoded([], EOF)
        else if size < 0 then Decoded([], Panicked)
        else Decode(rest[i + 1..], size, tail)
  }

  function Ahead(front: Bytes, d: Decoded): Decoded {
    Decoded(front + d.payload, d.end)
  }

  lemma AheadTwice(a: Bytes, b: Bytes, d: Decoded)
    ensures Ahead(a, Ahead(b, d)) == Ahead(a + b, d)
  {
    Regroup(a, b, d.payload);
  }

  lemma Regroup(a: Bytes, b: Bytes, c: Bytes)
    ensures a + (b + c) == a + b + c
  {
  }

  /** Taking some bytes of the current chunk takes them off the front of the payload. */
  lemma DecodePart(rest: Bytes, left: nat, tail: Error, n: nat)
    requires n <= |rest| && n < left
    ensures Decode(rest, left, tail) == Ahead(rest[..n], Decode(rest[n..], left - n, tail))
  {
    if |rest| < left {
      assert rest == rest[..n] + rest[n..];
    } else {
      assert rest[..left] == rest[..n] + rest[n..][..left - n];
      if |rest| >= left + 2 {
        assert rest[n..][left - n + 2..] == rest[left + 2..];
        var more := DecodeHead(rest[left + 2..], tail);
        assert rest[..left] + more.payload == rest[..n] + (rest[n..][..left - n] + more.payload);
      }
    }
  }

  /** The stream once the bytes of a read have been taken: `left` bytes and the CRLF remain. */
  function AfterData(rest: Bytes, left: nat, tail: Error): Decoded {
    if left > 0 then Decode(rest, left, tail)
    else if |rest| < 2 then Decoded([], tail)
    else DecodeHead(rest[2..], tail)
  }

  lemma AfterPart(chunk: Bytes, left: nat, tail: Error, n: nat)
    requires 0 < left && n <= |chunk| && n <= left
    ensures Decode(chunk, left, tail) == Ahead(chunk[..n], AfterData(chunk[n..], left - n, tail))
  {
    if n < left {
      DecodePart(chunk, left, tail, n);
    } else if |chunk| < left + 2 {
      assert chunk[..n] + [] == chunk[..n];
    } else {
      assert chunk[n..][2..] == chunk[left + 2..];
    }
  }

  // ---------- the reader ----------

  class AwsChunkedReader {
    const source: BufferedSource
    var left: int
    var err: Option<Error>

    constructor (source: BufferedSource)
      requires source.tail == EOF || source.tail == SourceError
      ensures Valid() && this.source == source
      ensures Future() == DecodeHead(source.rest, source.tail)
    {
      this.source := source;
      left := 0;
      err := None;
    }

    ghost predicate Valid()
      reads this
    {
      (source.tail == EOF || source.tail == SourceError) && left >= 0
    }

    /** What all Reads from now on will deliver. */
    ghost function Future(): Decoded
      requires Valid()
      reads this, source
    {
      if err.Some? then Decoded([], err.value) else Decode(source.rest, left, source.tail)
    }

    /** Reads the next chunk header; the body of `Read` down to `c.left = size`. */
    method ReadHeader()
      requires Valid() && err.None? && left == 0
      modifies this, source
      ensures Valid()
      ensures Future() == old(Future())
      ensures err.None? ==> left > 0 && |source.rest| < old(|source.rest|)
    {
      assert Future() == DecodeHead(source.rest, source.tail);
      var line, lineErr := source.ReadLine();
      if lineErr.Some? {
        err := lineErr;
        return;
      }
      var size := HeaderSize(line);
      if size.None? {
        err := Some(Malformed);
      } else if size.value == 0 {
        err := Some(EOF);
      } else if size.value < 0 {
        err := Some(Panicked);
      } else {
        left := size.value;
      }
    }

    /** Remembers an error, or steps over the CRLF after a chunk; the end of `Read`. */
    method FinishRead(readErr: Option<Error>)
      requires Valid() && err.None?
      requires readErr.None? || (readErr == Some(source.tail) && source.rest == [])
      modifies this, source
      ensures Valid()
      ensures Future() == AfterData(old(source.rest), old(left), source.tail)
      ensures |source.rest| <= old(|source.rest|)
      ensures readErr.Some? && old(left) > 0 ==> err.Some?
    {
      if readErr.Some? && readErr.value != EOF {
        err := readErr;
      } else if left == 0 {
        err := source.Discard(2);
      } else if readErr == Some(EOF) {
        err := Some(UnexpectedEOF);
      }
    }

    /** Reads from the current chunk; the rest of `Read`. */
    method ReadData(p: array<Byte>) returns (n: nat)
      requires Valid() && err.None? && left > 0
      modifies this, source, p
      ensures Valid() && n <= p.Length
      ensures forall k :: n <= k < p.Length ==> p[k] == old(p[k])
      ensures old(Future()) == Ahead(p[..n], Future())
      ensures |source.rest| <= old(|source.rest|)
      ensures err.None? && p.Length > 0 ==> |source.rest| < old(|source.rest|)
    {
      var readLen := if p.Length > left then left else p.Length;
      ghost var chunk, before := source.rest, left;
      var readErr;
      n, readErr := source.Read(p, readLen);
      left := left - n;
      AfterPart(chunk, before, source.tail, n);
      ghost var part := p[..n];
      FinishRead(readErr);
      assert p[..n] == part;
    }

    /** Each Read hands out the front of the future and keeps the rest of it; an error it
        reports is the final one, and nothing remains after it. */
    method Read(p: array<Byte>) returns (n: nat, e: Option<Error>)
      requires Valid()
      modifies this, source, p
      ensures Valid()
      ensures n <= p.Length
      ensures forall k :: n <= k < p.Length ==> p[k] == old(p[k])
      ensures old(Future()) == Ahead(p[..n], Future())
      ensures e.Some? ==> Future() == Decoded([], e.value) && err == e
      ensures e.None? ==> err.None?
      ensures e.None? && p.Length > 0 ==> |source.rest| < old(|source.rest|)
    {
      if err.Some? {
        return 0, err;
      }
      if left == 0 {
        ReadHeader();
        if err.Some? {
          return 0, err;
        }
      }

      n := ReadData(p);
      e := err;
    }
  }

  /** Reads until the first error, with any sequence of non-empty buffer sizes: whatever the
      sizes and however short the source's own reads are, the result is the stream's meaning. */
  method ReadAll(r: AwsChunkedReader, sizes: nat -> nat) returns (out: Bytes, e: Error)
    requires r.Valid()
    requires forall i :: sizes(i) > 0
    modifies r, r.source
    ensures Decoded(out, e) == old(r.Future())
  {
    out := [];
    var calls := 0;
    while true
      invariant r.Valid()
      invariant old(r.Future()) == Ahead(out, r.Future())
      decreases |r.source.rest|
    {
      var p := new Byte[sizes(calls)];
      var n, err := r.Read(p);
      AheadTwice(out, p[..n], r.Future());
      out := out + p[..n];
      calls := calls + 1;
      if err.Some? {
        assert out + [] == out;
        return out, err.value;
      }
    }
  }

  // ---------- the encoding ----------

  /** One chunk: its payload and the text after the size, such as a signature. */
  datatype Piece = Piece(ext: Bytes, data: Bytes)

  ghost predicate ExtOk(ext: Bytes) {
    '\n' !in ext && (ext == [] || ext[0] == ';')
  }

  ghost predicate PieceOk(p: Piece) {
    ExtOk(p.ext) && 0 < |p.data| < TWO_POW_63
  }

  const CRLF: Bytes := "\r\n"

  function Header(size: nat, ext: Bytes): Bytes {
    FormatUint(size, 16) + ext + CRLF
  }

  function EncodePiece(p: Piece): Bytes {
    Header(|p.data|, p.ext) + p.data + CRLF
  }

  /** The whole body: the chunks, the zero chunk, and whatever follows it. */
  function Encode(ps: seq<Piece>, lastExt: Bytes, trailer: Bytes): Bytes {
    if ps == [] then Header(0, lastExt) + trailer
    else EncodePiece(ps[0]) + Encode(ps[1..], lastExt, trailer)
  }

  function Payload(ps: seq<Piece>): Bytes {
    if ps == [] then [] else ps[0].data + Payload(ps[1..])
  }

  /** A header line ends at its only newline. */
  lemma HeaderIsALine(size: nat, ext: Bytes)
    requires ExtOk(ext)
    ensures |Header(size, ext)| > 0 && Header(size, ext)[|Header(size, ext)| - 1] == '\n'
    ensures forall i :: 0 <= i < |Header(size, ext)| - 1 ==> Header(size, ext)[i] != '\n'
  {
    var digits := FormatUint(size, 16);
    PrintedIsPlain(size, 16);
    assert IsSpace('\n');
    forall i | 0 <= i < |digits| ensures digits[i] != '\n' {
      assert !IsSpace(digits[i]);
    }
  }

  lemma BareHeaderSize(size: nat)
    requires size < TWO_POW_63
    ensures HeaderSize(Header(size, [])) == Some(size)
  {
    var digits := FormatUint(size, 16);
    PrintedIsPlain(size, 16);
    ParsePrinted(size, 16);
    BareLine(digits);
  }

  lemma BareLine(digits: Bytes)
    requires ';' !in digits && NoSpaces(digits)
    ensures HeaderSize(digits + [] + CRLF) == ParseInt(digits, 16)
  {
    var line := digits + [] + CRLF;
    assert line == "" + digits + CRLF;
    NoIndexOfChar(line, ';');
    TrimToken("", digits, CRLF);
  }

  lemma SignedHeaderSize(size: nat, ext: Bytes)
    requires ExtOk(ext) && ext != [] && size < TWO_POW_63
    ensures HeaderSize(Header(size, ext)) == Some(size)
  {
    var digits, h := FormatUint(size, 16), Header(size, ext);
    PrintedIsPlain(size, 16);
    ParsePrinted(size, 16);
    var after := ext[1..] + CRLF;
    assert h == digits + ";" + after;
    IndexOfChar(digits, ';', after);
    assert h[..|digits|] == "" + digits + "";
    TrimToken("", digits, "");
  }

  /** A header line announces the size it was printed from, whatever follows the semicolon. */
  lemma HeaderAnnounces(size: nat, ext: Bytes)
    requires ExtOk(ext) && size < TWO_POW_63
    ensures HeaderSize(Header(size, ext)) == Some(size)
  {
    if ext == [] {
      BareHeaderSize(size);
    } else {
      SignedHeaderSize(size, ext);
    }
  }

  lemma NewlineIs(s: Bytes, i: nat)
    requires i < |s| && s[i] == '\n' && forall j :: 0 <= j < i ==> s[j] != '\n'
    ensures NewlineAt(s) == Some(i)
  {
    var r := NewlineAt(s);
    if r.Some? {
      assert forall j :: 0 <= j < r.value ==> s[..r.value][j] == s[j];
    }
  }

  /** Decoding a stream that begins with a complete header. */
  lemma DecodeHeader(size: nat, ext: Bytes, rest: Bytes, tail: Error)
    requires ExtOk(ext) && size < TWO_POW_63
    ensures DecodeHead(Header(size, ext) + rest, tail)
         == if size == 0 then Decoded([], EOF) else Decode(rest, size, tail)
  {
    var h := Header(size, ext);
    var s := h + rest;
    HeaderIsALine(size, ext);
    HeaderAnnounces(size, ext);
    NewlineIs(s, |h| - 1);
    assert s[..|h|] == h && s[|h|..] == rest;
  }

  /** Decoding a stream that ends inside a header: no newline, so the source's own end. */
  lemma DecodeCutHeader(size: nat, ext: Bytes, k: nat, tail: Error)
    requires ExtOk(ext) && size < TWO_POW_63 && k < |Header(size, ext)|
    ensures DecodeHead(Header(size, ext)[..k], tail) == Decoded([], tail)
  {
    HeaderIsALine(size, ext);
    var cut := Header(size, ext)[..k];
    assert forall c :: c in cut ==> c != '\n';
  }

  /** Decoding undoes encoding, for every payload, every split into chunks and any extensions. */
  lemma {:induction false} DecodeEncode(ps: seq<Piece>, lastExt: Bytes, trailer: Bytes, tail: Error)
    requires ExtOk(lastExt) && forall i :: 0 <= i < |ps| ==> PieceOk(ps[i])
    ensures DecodeHead(Encode(ps, lastExt, trailer), tail) == Decoded(Payload(ps), EOF)
    decreases |ps|
  {
    if ps == [] {
      DecodeHeader(0, lastExt, trailer, tail);
    } else {
      var p, more := ps[0], Encode(ps[1..], lastExt, trailer);
      var body := p.data + CRLF + more;
      assert Encode(ps, lastExt, trailer) == Header(|p.data|, p.ext) + body;
      DecodeHeader(|p.data|, p.ext, body, tail);
      assert body[..|p.data|] == p.data && body[|p.data| + 2..] == more;
      DecodeEncode(ps[1..], lastExt, trailer, tail);
    }
  }

  /** End to end: reading an encoded body to its end yields the payload and a clean end of file,
      whatever the buffer sizes, the source's short reads and the way the source itself ends. */
  method ReadEncoded(stream: Bytes, tail: Error, sizes: nat -> nat,
                     ghost ps: seq<Piece>, ghost lastExt: Bytes, ghost trailer: Bytes)
    returns (out: Bytes, e: Error)
    requires tail == EOF || tail == SourceError
    requires forall i :: sizes(i) > 0
    requires ExtOk(lastExt) && forall i :: 0 <= i < |ps| ==> PieceOk(ps[i])
    requires stream == Encode(ps, lastExt, trailer)
    ensures out == Payload(ps) && e == EOF
  {
    var source := new BufferedSource(stream, tail);
    var r := new AwsChunkedReader(source);
    DecodeEncode(ps, lastExt, trailer, tail);
    out, e := ReadAll(r, sizes);
  }

  // ---------- truncated streams ----------

  /** The first `k` bytes of the encoding end inside the data of some chunk. */
  predicate CutInData(ps: seq<Piece>, k: nat) {
    if ps == [] then false
    else
      var h, d := |Header(|ps[0].data|, ps[0].ext)|, |ps[0].data|;
      if k < h then false
      else if k < h + d then true
      else if k < h + d + 2 then false
      else CutInData(ps[1..], k - h - d - 2)
  }

  /** Payload bytes among the first `k` bytes of the encoding. */
  function DataBefore(ps: seq<Piece>, k: nat): nat {
    if ps == [] then 0
    else
      var h, d := |Header(|ps[0].data|, ps[0].ext)|, |ps[0].data|;
      if k < h then 0
      else if k < h + d then k - h
      else if k < h + d + 2 then d
      else d + DataBefore(ps[1..], k - h - d - 2)
  }

  /** A stream cut in the body of a chunk, after `at` bytes of it. */
  function CutBody(d: Bytes, at: nat, tail: Error): Decoded {
    if at < |d| then Decoded(d[..at], if tail == EOF then UnexpectedEOF else tail) else Decoded(d, tail)
  }

  /** A stream cut somewhere in the body of its first chunk, or later. */
  lemma DecodeCutPiece(d: Bytes, more: Bytes, at: nat, tail: Error)
    requires 0 < |d| && at <= |d + CRLF + more|
    ensures Decode((d + CRLF + more)[..at], |d|, tail)
         == if at < |d| + 2 then CutBody(d, at, tail)
            else Ahead(d, DecodeHead(more[..at - |d| - 2], tail))
  {
    var cut := (d + CRLF + more)[..at];
    if at < |d| {
      assert cut == d[..at];
    } else if at < |d| + 2 {
      assert cut[..|d|] == d;
    } else {
      assert cut[..|d|] == d && cut[|d| + 2..] == more[..at - |d| - 2];
    }
  }

  lemma DecodeCutHeaded(size: nat, ext: Bytes, rest: Bytes, k: nat, tail: Error)
    requires ExtOk(ext) && size < TWO_POW_63 && k <= |Header(size, ext) + rest|
    ensures DecodeHead((Header(size, ext) + rest)[..k], tail)
         == if k < |Header(size, ext)| then Decoded([], tail)
            else if size == 0 then Decoded([], EOF)
            else Decode(rest[..k - |Header(size, ext)|], size, tail)
  {
    var h := Header(size, ext);
    if k < |h| {
      assert (h + rest)[..k] == h[..k];
      DecodeCutHeader(size, ext, k, tail);
    } else {
      assert (h + rest)[..k] == h + rest[..k - |h|];
      DecodeHeader(size, ext, rest[..k - |h|], tail);
    }
  }

  function WireLength(p: Piece): nat {
    |Header(|p.data|, p.ext)| + |p.data| + 2
  }

  /** A stream cut inside its first chunk. */
  function CutPiece(p: Piece, k: nat, tail: Error): Decoded {
    var h := |Header(|p.data|, p.ext)|;
    if k < h then Decoded([], tail) else CutBody(p.data, k - h, tail)
  }

  /** Decoding a cut stream, as far as its first chunk goes. */
  lemma DecodeCutFirst(p: Piece, more: Bytes, k: nat, tail: Error)
    requires PieceOk(p) && k <= |EncodePiece(p) + more|
    ensures DecodeHead((EncodePiece(p) + more)[..k], tail)
         == if k < WireLength(p) then CutPiece(p, k, tail)
            else Ahead(p.data, DecodeHead(more[..k - WireLength(p)], tail))
  {
    EncodedPiece(p, more);
    CutHeadAndBody(p, Header(|p.data|, p.ext), p.data + CRLF + more, more, k, tail);
  }

  lemma CutHeadAndBody(p: Piece, h: Bytes, body: Bytes, more: Bytes, k: nat, tail: Error)
    requires PieceOk(p) && h == Header(|p.data|, p.ext) && body == p.data + CRLF + more && k <= |h + body|
    ensures DecodeHead((h + body)[..k], tail)
         == if k < WireLength(p) then CutPiece(p, k, tail)
            else Ahead(p.data, DecodeHead(more[..k - WireLength(p)], tail))
  {
    DecodeCutHeaded(|p.data|, p.ext, body, k, tail);
    if k >= |h| {
      DecodeCutPiece(p.data, more, k - |h|, tail);
      assert DecodeHead((h + body)[..k], tail) == Decode(body[..k - |h|], |p.data|, tail);
    }
  }

  lemma EncodedPiece(p: Piece, more: Bytes)
    ensures EncodePiece(p) + more == Header(|p.data|, p.ext) + (p.data + CRLF + more)
  {
  }

  /** What a cut stream decodes to, chunk by chunk. */
  function Truncated(ps: seq<Piece>, lastExt: Bytes, k: nat, tail: Error): Decoded {
    if ps == [] then Decoded([], if k < |Header(0, lastExt)| then tail else EOF)
    else if k < WireLength(ps[0]) then CutPiece(ps[0], k, tail)
    else Ahead(ps[0].data, Truncated(ps[1..], lastExt, k - WireLength(ps[0]), tail))
  }

  lemma EncodedLength(ps: seq<Piece>, lastExt: Bytes, trailer: Bytes)
    requires ps != []
    ensures |Encode(ps, lastExt, trailer)| == WireLength(ps[0]) + |Encode(ps[1..], lastExt, trailer)|
  {
  }

  /** A cut after the first chunk cuts the rest. */
  lemma TruncatedNext(p: Piece, more: Bytes, k: nat, tail: Error, rest: Decoded)
    requires PieceOk(p) && WireLength(p) <= k <= |EncodePiece(p) + more| && k - WireLength(p) <= |more|
    requires DecodeHead(more[..k - WireLength(p)], tail) == rest
    ensures DecodeHead((EncodePiece(p) + more)[..k], tail) == Ahead(p.data, rest)
  {
    DecodeCutFirst(p, more, k, tail);
  }

  lemma {:induction false} DecodeIsTruncated(ps: seq<Piece>, lastExt: Bytes, trailer: Bytes, k: nat, tail: Error)
    requires ExtOk(lastExt) && forall i :: 0 <= i < |ps| ==> PieceOk(ps[i])
    requires k <= |Encode(ps, lastExt, trailer)|
    ensures DecodeHead(Encode(ps, lastExt, trailer)[..k], tail) == Truncated(ps, lastExt, k, tail)
    decreases |ps|
  {
    if ps == [] {
      DecodeCutHeaded(0, lastExt, trailer, k, tail);
    } else {
      var p, more := ps[0], Encode(ps[1..], lastExt, trailer);
      EncodedLength(ps, lastExt, trailer);
      if k < WireLength(p) {
        DecodeCutFirst(p, more, k, tail);
      } else {
        DecodeIsTruncated(ps[1..], lastExt, trailer, k - WireLength(p), tail);
        TruncatedNext(p, more, k, tail, Truncated(ps[1..], lastExt, k - WireLength(p), tail));
      }
    }
  }

  /** How a stream of which the first `k` bytes arrive ends, when its source then ends with `tail`. */
  function CutEnd(ps: seq<Piece>, lastExt: Bytes, k: nat, tail: Error): Error {
    if |Encode(ps, lastExt, [])| <= k then EOF
    else if CutInData(ps, k) && tail == EOF then UnexpectedEOF
    else tail
  }

  lemma {:induction false} TruncatedEnds(ps: seq<Piece>, lastExt: Bytes, k: nat, tail: Error)
    ensures Truncated(ps, lastExt, k, tail).end == CutEnd(ps, lastExt, k, tail)
    decreases |ps|
  {
    if ps != [] && k >= WireLength(ps[0]) {
      TruncatedEnds(ps[1..], lastExt, k - WireLength(ps[0]), tail);
    }
  }

  lemma {:induction false} TruncatedPayload(ps: seq<Piece>, lastExt: Bytes, k: nat, tail: Error)
    ensures DataBefore(ps, k) <= |Payload(ps)|
    ensures Truncated(ps, lastExt, k, tail).payload == Payload(ps)[..DataBefore(ps, k)]
    decreases |ps|
  {
    if ps != [] {
      var n := DataBefore(ps, k);
      if k < WireLength(ps[0]) {
        assert Payload(ps)[..n] == ps[0].data[..n];
      } else {
        var j := k - WireLength(ps[0]);
        TruncatedPayload(ps[1..], lastExt, j, tail);
        assert Payload(ps)[..n] == ps[0].data + Payload(ps[1..])[..DataBefore(ps[1..], j)];
      }
    }
  }

  /** A cut stream decodes to the payload bytes it still has.  Once the header of the zero chunk has
      arrived the end is clean.  Before that, a source that fails is reported as failing wherever the
      cut falls; a source that just ends is reported as an unexpected end exactly when the cut falls
      inside chunk data, and anywhere else looks like a clean end of file. */
  lemma DecodeTruncated(ps: seq<Piece>, lastExt: Bytes, trailer: Bytes, k: nat, tail: Error)
    requires ExtOk(lastExt) && forall i :: 0 <= i < |ps| ==> PieceOk(ps[i])
    requires k <= |Encode(ps, lastExt, trailer)|
    ensures DataBefore(ps, k) <= |Payload(ps)|
    ensures DecodeHead(Encode(ps, lastExt, trailer)[..k], tail)
         == Decoded(Payload(ps)[..DataBefore(ps, k)], CutEnd(ps, lastExt, k, tail))
  {
    DecodeIsTruncated(ps, lastExt, trailer, k, tail);
    TruncatedEnds(ps, lastExt, k, tail);
    TruncatedPayload(ps, lastExt, k, tail);
  }

  /** End to end for a connection that ends or breaks after `k` bytes: a client never sees a clean
      end of file from a source that fails before the zero chunk's header is complete. */
  method ReadCut(stream: Bytes, tail: Error, sizes: nat -> nat,
                 ghost ps: seq<Piece>, ghost lastExt: Bytes, ghost trailer: Bytes, ghost k: nat)
    returns (out: Bytes, e: Error)
    requires tail == EOF || tail == SourceError
    requires forall i :: sizes(i) > 0
    requires ExtOk(lastExt) && forall i :: 0 <= i < |ps| ==> PieceOk(ps[i])
    requires k <= |Encode(ps, lastExt, trailer)| && stream == Encode(ps, lastExt, trailer)[..k]
    ensures DataBefore(ps, k) <= |Payload(ps)| && out == Payload(ps)[..DataBefore(ps, k)]
    ensures e == EOF <==> |Encode(ps, lastExt, [])| <= k || (tail == EOF && !CutInData(ps, k))
    ensures e == SourceError <==> tail == SourceError && k < |Encode(ps, lastExt, [])|
  {
    var source := new BufferedSource(stream, tail);
    var r := new AwsChunkedReader(source);
    DecodeTruncated(ps, lastExt, trailer, k, tail);
    out, e := ReadAll(r, sizes);
  }
}
