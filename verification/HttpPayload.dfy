/** The payload of an HTTP message (assign6/payload.cc): of a given length, or in chunks that are kept as they came. */
module HttpPayload {
  import opened Basics
  import opened HttpText
  import opened HttpStream
  import opened HttpHeader

  const CONTENT_LENGTH := "content-length"
  const TRANSFER_ENCODING := "transfer-encoding"

  const BREAK := "\r\n"

  predicate IsChunked(fields: Fields) { ValueAt(fields, TRANSFER_ENCODING) == "chunked" }

  lemma ContentInLower()
    ensures ToLower("Content") == "content"
  {
    ToLowerIs("Content", "content");
  }

  lemma LengthInLower()
    ensures ToLower("-Length") == "-length"
  {
    ToLowerIs("-Length", "-length");
  }

  lemma LengthParts()
    ensures "Content" + "-Length" == "Content-Length" && "content" + "-length" == CONTENT_LENGTH
  {
  }

  lemma LengthName()
    ensures ToLower("Content-Length") == CONTENT_LENGTH
  {
    ContentInLower();
    LengthInLower();
    ToLowerAppend("Content", "-Length");
    LengthParts();
  }

  lemma TransferInLower()
    ensures ToLower("Transfer") == "transfer"
  {
    ToLowerIs("Transfer", "transfer");
  }

  lemma EncodingInLower()
    ensures ToLower("-Encoding") == "-encoding"
  {
    ToLowerIs("-Encoding", "-encoding");
  }

  lemma EncodingParts()
    ensures "Transfer" + "-Encoding" == "Transfer-Encoding"
  {
  }

  lemma EncodingPartsInLower()
    ensures "transfer" + "-encoding" == TRANSFER_ENCODING
  {
  }

  lemma EncodingName()
    ensures ToLower("Transfer-Encoding") == TRANSFER_ENCODING
  {
    TransferInLower();
    EncodingInLower();
    ToLowerAppend("Transfer", "-Encoding");
    EncodingParts();
    EncodingPartsInLower();
  }

  // ---------------------------------------------------------------- reading on strings

  /** The buffer for a chunk and its line break cannot have a negative size, or one that an int cannot hold. */
  predicate FitsInt(n: int) { 0 <= n + 2 <= INT_MAX }

  function SizeText(size: string): string { size + BREAK }

  /** ingestChunkedPayload: size line, chunk and line break, until a size of zero. None stands for the exception of an
      impossible buffer. The test for the end of the stream adds nothing: a missing size line is a size of zero. */
  function IngestChunked(s: string, payload: string): Option<(string, string)>
    decreases |s|
  {
    var (line, rest) := GetLine(s, '\n');
    var size := Trim(line);
    if ChunkSize(size) == 0 || s == [] then Some((payload + SizeText(size) + BREAK, rest))
    else if !FitsInt(ChunkSize(size)) then None
    else
      IngestChunked(Skip(rest, ChunkSize(size) + 2), payload + SizeText(size) + ReadChars(rest, ChunkSize(size) + 2))
  }

  /** ingestPayload appends to what the payload holds. */
  function IngestPayload(s: string, fields: Fields, payload: string): Option<(string, string)> {
    if IsChunked(fields) then IngestChunked(s, payload)
    else
      var n := NumberOf(ValueAt(fields, CONTENT_LENGTH));
      if n < 0 then None else Some((payload + ReadChars(s, n), Skip(s, n)))
  }

  // ---------------------------------------------------------------- payloads that can be read back

  /** A chunk: its size line without line break, and its data with the line break that follows them. */
  datatype Chunk = Chunk(size: string, data: string)

  predicate SizeLine(size: string) { Trimmed(size) && '\n' !in size }

  predicate ChunkOk(c: Chunk) {
    SizeLine(c.size) && ChunkSize(c.size) != 0 && FitsInt(ChunkSize(c.size)) && |c.data| == ChunkSize(c.size) + 2
  }

  predicate ChunksOk(chunks: seq<Chunk>, last: string) {
    (forall i :: 0 <= i < |chunks| ==> ChunkOk(chunks[i])) && SizeLine(last) && ChunkSize(last) == 0
  }

  /** Chunks in the coding of section 4.1 of RFC 7230, without trailer: `last` is the size line of the last chunk. */
  function Text(chunks: seq<Chunk>, last: string): string {
    if chunks == [] then SizeText(last) + BREAK
    else SizeText(chunks[0].size) + (chunks[0].data + Text(chunks[1..], last))
  }

  ghost predicate WellChunked(payload: string) {
    exists chunks, last :: ChunksOk(chunks, last) && payload == Text(chunks, last)
  }

  /** The payload is what its header fields say. */
  ghost predicate CanonicalPayload(fields: Fields, payload: string) {
    if IsChunked(fields) then WellChunked(payload) else NumberOf(ValueAt(fields, CONTENT_LENGTH)) == |payload|
  }

  /** The characters left in the stream after a canonical payload: a chunked one leaves its last blank line. */
  function LeftOver(fields: Fields, rest: string): string {
    if IsChunked(fields) then BREAK + rest else rest
  }

  lemma ReadSizeLine(size: string, more: string)
    requires SizeLine(size)
    ensures var (line, rest) := GetLine(SizeText(size) + more, '\n'); Trim(line) == size && rest == more
  {
    RTrimSpaces(size, "\r");
    assert SizeText(size) + more == size + "\r" + ['\n'] + more;
    GetLineOf(size + "\r", '\n', more);
  }

  lemma ReadData(data: string, more: string)
    ensures ReadChars(data + more, |data|) == data && Skip(data + more, |data|) == more
  {
    assert (data + more)[..|data|] == data && (data + more)[|data|..] == more;
  }

  lemma IngestChunk(c: Chunk, more: string, payload: string)
    requires ChunkOk(c)
    ensures IngestChunked(SizeText(c.size) + (c.data + more), payload)
            == IngestChunked(more, payload + SizeText(c.size) + c.data)
  {
    ReadSizeLine(c.size, c.data + more);
    ReadData(c.data, more);
  }

  lemma IngestLast(last: string, rest: string, payload: string)
    requires SizeLine(last) && ChunkSize(last) == 0
    ensures IngestChunked(SizeText(last) + rest, payload) == Some((payload + SizeText(last) + BREAK, rest))
  {
    ReadSizeLine(last, rest);
  }

  lemma Join(a: string, b: string, c: string)
    ensures a + b + c == a + (b + c)
  {
  }

  /** Reading well-formed chunks copies them; the blank line after the last one stays in the stream. */
  lemma {:induction false} ChunkedRoundTrip(chunks: seq<Chunk>, last: string, rest: string, payload: string)
    requires ChunksOk(chunks, last)
    ensures IngestChunked(Text(chunks, last) + rest, payload) == Some((payload + Text(chunks, last), BREAK + rest))
    decreases |chunks|
  {
    if chunks == [] {
      IngestLast(last, BREAK + rest, payload);
      Join(SizeText(last), BREAK, rest);
      Join(payload, SizeText(last), BREAK);
    } else {
      var c, more := chunks[0], Text(chunks[1..], last);
      var sizeText := SizeText(c.size);
      IngestChunk(c, more + rest, payload);
      ChunkedRoundTrip(chunks[1..], last, rest, payload + sizeText + c.data);
      Join(sizeText, c.data + more, rest);
      Join(c.data, more, rest);
      Join(payload + sizeText, c.data, more);
      Join(payload, sizeText, c.data + more);
    }
  }

  /** A canonical payload is read back from its own text. */
  lemma PayloadRoundTrip(fields: Fields, payload: string, rest: string)
    requires CanonicalPayload(fields, payload)
    ensures IngestPayload(payload + rest, fields, "") == Some((payload, LeftOver(fields, rest)))
  {
    assert "" + payload == payload;
    if IsChunked(fields) {
      var chunks, last :| ChunksOk(chunks, last) && payload == Text(chunks, last);
      ChunkedRoundTrip(chunks, last, rest, "");
    } else {
      ReadData(payload, rest);
    }
  }

  /** No read of the chunked loop comes up short, and every size but the last is positive. */
  predicate ReadsInFull(s: string)
    decreases |s|
  {
    var (line, rest) := GetLine(s, '\n');
    var n := ChunkSize(Trim(line));
    n == 0 || s == [] || (n > 0 && FitsInt(n) && n + 2 <= |rest| && ReadsInFull(rest[n + 2..]))
  }

  lemma TextOfCons(c: Chunk, chunks: seq<Chunk>, last: string, payload: string)
    ensures payload + SizeText(c.size) + c.data + Text(chunks, last) == payload + Text([c] + chunks, last)
  {
    assert ([c] + chunks)[1..] == chunks;
    Join(payload + SizeText(c.size), c.data, Text(chunks, last));
    Join(payload, SizeText(c.size), c.data + Text(chunks, last));
  }

  function FirstSize(s: string): string { Trim(GetLine(s, '\n').0) }

  lemma FirstSizeLine(s: string)
    ensures SizeLine(FirstSize(s)) && (s == [] ==> ChunkSize(FirstSize(s)) == 0)
  {
    LineHasNoDelim(s, '\n');
    TrimIsTrimmed(GetLine(s, '\n').0, '\n');
    if s == [] {
      EmptySize();
    }
  }

  /** The first chunk of a stream that is read in full, and the stream after it. */
  lemma IngestFirst(s: string, payload: string) returns (c: Chunk, more: string)
    requires ReadsInFull(s) && ChunkSize(FirstSize(s)) != 0
    ensures ChunkOk(c) && |more| < |s| && ReadsInFull(more)
    ensures IngestChunked(s, payload) == IngestChunked(more, payload + SizeText(c.size) + c.data)
  {
    FirstSizeLine(s);
    var rest := GetLine(s, '\n').1;
    var n := ChunkSize(FirstSize(s)) + 2;
    c, more := Chunk(FirstSize(s), rest[..n]), rest[n..];
  }

  /** Whatever was read in full, even with blanks around the sizes or with chunk extensions, is canonical: it can be
      printed and read again. */
  lemma {:induction false} IngestedIsChunked(s: string, payload: string) returns (chunks: seq<Chunk>, last: string)
    requires ReadsInFull(s)
    ensures ChunksOk(chunks, last)
    ensures IngestChunked(s, payload).Some? && IngestChunked(s, payload).value.0 == payload + Text(chunks, last)
    decreases |s|
  {
    FirstSizeLine(s);
    if ChunkSize(FirstSize(s)) == 0 {
      chunks, last := [], FirstSize(s);
      Join(payload, SizeText(last), BREAK);
    } else {
      var c, more := IngestFirst(s, payload);
      chunks, last := IngestedIsChunked(more, payload + SizeText(c.size) + c.data);
      TextOfCons(c, chunks, last, payload);
      chunks := [c] + chunks;
    }
  }

  lemma EmptySize()
    ensures ChunkSize(Trim(GetLine([], '\n').0)) == 0
  {
  }

  /** Pieces of data in the chunked coding: each with its size in base 16 in front, and a last chunk of size 0. */
  function Coded(pieces: seq<string>): string {
    if pieces == [] then "0" + BREAK + BREAK
    else Hex(|pieces[0]|) + BREAK + (pieces[0] + BREAK + Coded(pieces[1..]))
  }

  lemma HexIsSizeLine(n: nat)
    ensures SizeLine(Hex(n))
  {
    HexDigits(n);
    assert IsSpace('\n');
  }

  lemma PieceIsChunk(piece: string)
    requires piece != [] && |piece| + 2 <= INT_MAX
    ensures ChunkOk(Chunk(Hex(|piece|), piece + BREAK))
  {
    HexIsSizeLine(|piece|);
    ChunkSizeReadBack(|piece|, []);
    assert Hex(|piece|) + [] == Hex(|piece|);
  }

  lemma ZeroIsLast()
    ensures SizeLine("0") && ChunkSize("0") == 0
  {
    ChunkSizeReadBack(0, []);
    assert Hex(0) + [] == "0";
  }

  lemma {:induction false} CodedIsChunked(pieces: seq<string>) returns (chunks: seq<Chunk>)
    requires forall i :: 0 <= i < |pieces| ==> pieces[i] != [] && |pieces[i]| + 2 <= INT_MAX
    ensures ChunksOk(chunks, "0") && Text(chunks, "0") == Coded(pieces)
  {
    ZeroIsLast();
    chunks := [];
    if pieces != [] {
      var rest := CodedIsChunked(pieces[1..]);
      var c := Chunk(Hex(|pieces[0]|), pieces[0] + BREAK);
      PieceIsChunk(pieces[0]);
      chunks := [c] + rest;
      assert chunks[1..] == rest;
    }
  }

  /** Data in the chunked coding are read to their end, whatever follows them. */
  lemma CodedIsRead(pieces: seq<string>, rest: string)
    requires forall i :: 0 <= i < |pieces| ==> pieces[i] != [] && |pieces[i]| + 2 <= INT_MAX
    ensures IngestChunked(Coded(pieces) + rest, "") == Some((Coded(pieces), BREAK + rest))
  {
    var chunks := CodedIsChunked(pieces);
    ChunkedRoundTrip(chunks, "0", rest, "");
    assert "" + Coded(pieces) == Coded(pieces);
  }

  /** A length that was just set is what the header says exactly if it fits an int, unless the header also says that the
      payload is chunked. */
  lemma LengthIsCanonical(fields: Fields, payload: string)
    requires !IsChunked(fields)
    ensures CanonicalPayload(fields[CONTENT_LENGTH := Decimal(AsInt(|payload|))], payload) <==> |payload| <= INT_MAX
  {
    NumberOfDecimal(AsInt(|payload|));
    assert |CONTENT_LENGTH| == 14 && |TRANSFER_ENCODING| == 17;
  }

  // ---------------------------------------------------------------- the class

  class Payload {
    var payload: string

    constructor ()
      ensures payload == []
    {
      payload := [];
    }

    method AppendData(data: string)
      modifies this
      ensures payload == old(payload) + data
    {
      payload := payload + data;
    }

    /** One turn of the loop of ingestChunkedPayload: None if it ends, otherwise whether the buffer was possible. */
    method NextChunk(instream: IStream) returns (more: Option<bool>)
      modifies this, instream
      ensures match more
              case None => IngestChunked(old(instream.rest), old(payload)) == Some((payload + BREAK, instream.rest))
              case Some(false) => IngestChunked(old(instream.rest), old(payload)) == None
              case Some(true) => |instream.rest| < |old(instream.rest)|
                                 && IngestChunked(old(instream.rest), old(payload))
                                    == IngestChunked(instream.rest, payload)
    {
      if instream.rest == [] {
        EmptySize();
      }
      var chunkSizeStr := instream.NextLine();
      chunkSizeStr := Trim(chunkSizeStr);
      AppendData(SizeText(chunkSizeStr));
      var chunkSize := ChunkSize(chunkSizeStr);
      if chunkSize == 0 {
        return None;
      }
      if !FitsInt(chunkSize) {
        return Some(false);
      }
      var content := instream.Read(chunkSize + 2);
      AppendData(content);
      return Some(true);
    }

    method IngestChunkedPayload(instream: IStream) returns (ok: bool)
      modifies this, instream
      ensures ok == IngestChunked(old(instream.rest), old(payload)).Some?
      ensures ok ==> (payload, instream.rest) == IngestChunked(old(instream.rest), old(payload)).value
    {
      ghost var goal := IngestChunked(instream.rest, payload);
      while true
        invariant IngestChunked(instream.rest, payload) == goal
        decreases |instream.rest|
      {
        var more := NextChunk(instream);
        if more == None {
          break;
        }
        if !more.value {
          return false;
        }
      }
      AppendData(BREAK);
      return true;
    }

    method IsChunkedPayload(header: Header) returns (chunked: bool)
      ensures chunked == IsChunked(header.headers)
    {
      EncodingName();
      var encoding := header.GetValueAsString("Transfer-Encoding");
      return encoding == "chunked";
    }

    method ContentLength(header: Header) returns (length: int)
      ensures length == NumberOf(ValueAt(header.headers, CONTENT_LENGTH))
    {
      LengthName();
      length := header.GetValueAsNumber("Content-Length");
    }

    method IngestCompletePayload(instream: IStream, contentLength: nat)
      modifies this, instream
      ensures payload == old(payload) + ReadChars(old(instream.rest), contentLength)
      ensures instream.rest == Skip(old(instream.rest), contentLength)
    {
      var content := instream.Read(contentLength);
      AppendData(content);
    }

    method Ingest(header: Header, instream: IStream) returns (ok: bool)
      modifies this, instream
      ensures ok == IngestPayload(old(instream.rest), header.headers, old(payload)).Some?
      ensures ok ==>
                (payload, instream.rest) == IngestPayload(old(instream.rest), header.headers, old(payload)).value
    {
      var chunked := IsChunkedPayload(header);
      if chunked {
        ok := IngestChunkedPayload(instream);
      } else {
        var contentLength := ContentLength(header);
        if contentLength < 0 {
          return false;
        }
        IngestCompletePayload(instream, contentLength);
        ok := true;
      }
    }

    /** setPayload: afterwards the payload is what the header says, unless the header also says that it is chunked, or
        the length does not fit an int. */
    method SetPayload(header: Header, text: string)
      modifies this, header
      ensures payload == text && header.headers == old(header.headers)[CONTENT_LENGTH := Decimal(AsInt(|text|))]
      ensures !IsChunked(old(header.headers)) ==> (CanonicalPayload(header.headers, payload) <==> |text| <= INT_MAX)
    {
      payload := [];
      AppendData(text);
      LengthName();
      header.AddNumber("Content-Length", AsInt(|text|));
      if !IsChunked(old(header.headers)) {
        LengthIsCanonical(old(header.headers), text);
      }
    }
  }
}
