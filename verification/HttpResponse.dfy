/** HTTP responses (assign6/response.cc): printed to the cache and read back from it. */
module HttpResponse {
  import opened Basics
  import opened HttpText
  import opened HttpStream
  import H = HttpHeader
  import opened HttpPayload

  // ---------------------------------------------------------------- the status line

  /** getStatusMessage, a few codes at a time. */
  function StatusMessage(code: int): string {
    match code
    case 100 => "Continue"
    case 101 => "Switching Protocols"
    case 200 => "OK"
    case _ => SuccessMessage(code)
  }

  function SuccessMessage(code: int): string {
    match code
    case 201 => "Created"
    case 202 => "Accepted"
    case 203 => "Non-Authoritative Information"
    case _ => NoContentMessage(code)
  }

  function NoContentMessage(code: int): string {
    match code
    case 204 => "No Content"
    case 205 => "Reset Content"
    case 206 => "Partial Content"
    case _ => RedirectMessage(code)
  }

  function RedirectMessage(code: int): string {
    match code
    case 300 => "Multiple Choices"
    case 301 => "Permanently Moved"
    case 302 => "Found"
    case _ => OtherRedirectMessage(code)
  }

  function OtherRedirectMessage(code: int): string {
    match code
    case 303 => "See Other"
    case 304 => "Not Modified"
    case 305 => "Use Proxy"
    case 307 => "Temporary Redirect"
    case _ => ClientErrorMessage(code)
  }

  function ClientErrorMessage(code: int): string {
    match code
    case 400 => "Bad Request"
    case 401 => "Unauthorized"
    case 402 => "Payment Required"
    case _ => ForbiddenMessage(code)
  }

  function ForbiddenMessage(code: int): string {
    match code
    case 403 => "Forbidden"
    case 404 => "Not Found"
    case 405 => "Method Not Allowed"
    case _ => NotAcceptableMessage(code)
  }

  function NotAcceptableMessage(code: int): string {
    match code
    case 406 => "Not Acceptable"
    case 407 => "Proxy Authentication Required"
    case 408 => "Request Timeout"
    case _ => ConflictMessage(code)
  }

  function ConflictMessage(code: int): string {
    match code
    case 409 => "Conflict"
    case 410 => "Gone"
    case _ => ServerErrorMessage(code)
  }

  function ServerErrorMessage(code: int): string {
    match code
    case 500 => "Internal Server Error"
    case 501 => "Not Implemented"
    case 502 => "Bad Gateway"
    case _ => TimeoutMessage(code)
  }

  function TimeoutMessage(code: int): string {
    match code
    case 504 => "Gateway Timeout"
    case 505 => "HTTP Version Not Supported"
    case 510 => "General Proxy Failure"
    case _ => "Unknown Code"
  }

  lemma TimeoutMessageHasNoBreak(code: int)
    ensures '\n' !in TimeoutMessage(code)
  {
  }

  lemma ServerErrorMessageHasNoBreak(code: int)
    ensures '\n' !in ServerErrorMessage(code)
  {
    TimeoutMessageHasNoBreak(code);
  }

  lemma ConflictMessageHasNoBreak(code: int)
    ensures '\n' !in ConflictMessage(code)
  {
    ServerErrorMessageHasNoBreak(code);
  }

  lemma NotAcceptableMessageHasNoBreak(code: int)
    ensures '\n' !in NotAcceptableMessage(code)
  {
    ConflictMessageHasNoBreak(code);
  }

  lemma ForbiddenMessageHasNoBreak(code: int)
    ensures '\n' !in ForbiddenMessage(code)
  {
    NotAcceptableMessageHasNoBreak(code);
  }

  lemma ClientErrorMessageHasNoBreak(code: int)
    ensures '\n' !in ClientErrorMessage(code)
  {
    ForbiddenMessageHasNoBreak(code);
  }

  lemma OtherRedirectMessageHasNoBreak(code: int)
    ensures '\n' !in OtherRedirectMessage(code)
  {
    ClientErrorMessageHasNoBreak(code);
  }

  lemma RedirectMessageHasNoBreak(code: int)
    ensures '\n' !in RedirectMessage(code)
  {
    OtherRedirectMessageHasNoBreak(code);
  }

  lemma NoContentMessageHasNoBreak(code: int)
    ensures '\n' !in NoContentMessage(code)
  {
    RedirectMessageHasNoBreak(code);
  }

  lemma SuccessMessageHasNoBreak(code: int)
    ensures '\n' !in SuccessMessage(code)
  {
    NoContentMessageHasNoBreak(code);
  }

  lemma StatusMessageHasNoBreak(code: int)
    ensures '\n' !in StatusMessage(code)
  {
    SuccessMessageHasNoBreak(code);
  }

  /** iss >> string: the first word, and what follows it. */
  function WordLength(s: string): (n: nat)
    ensures n <= |s|
  {
    if s == [] || IsSpace(s[0]) then 0 else 1 + WordLength(s[1..])
  }

  function FirstWord(s: string): (string, string) {
    var t := LTrim(s);
    (t[..WordLength(t)], t[WordLength(t)..])
  }

  predicate IsWord(s: string) { s != [] && forall i :: 0 <= i < |s| ==> !IsSpace(s[i]) }

  lemma {:induction false} WordLengthOf(word: string, rest: string)
    requires (forall i :: 0 <= i < |word| ==> !IsSpace(word[i])) && (rest != [] ==> IsSpace(rest[0]))
    ensures WordLength(word + rest) == |word|
  {
    if word == [] {
      assert word + rest == rest;
    } else {
      assert (word + rest)[1..] == word[1..] + rest;
      WordLengthOf(word[1..], rest);
    }
  }

  function StatusLine(protocol: string, code: int): string {
    protocol + (" " + (Decimal(code) + (" " + StatusMessage(code))))
  }

  lemma WordReadBack(word: string, rest: string)
    requires IsWord(word) && (rest != [] ==> IsSpace(rest[0]))
    ensures FirstWord(word + rest) == (word, rest)
  {
    WordLengthOf(word, rest);
    LTrimSpaces([], word + rest);
    assert [] + (word + rest) == word + rest;
    assert (word + rest)[..|word|] == word && (word + rest)[|word|..] == rest;
  }

  /** The status line gives back the protocol and the code. */
  lemma StatusLineReadBack(protocol: string, code: int)
    requires IsWord(protocol) && INT_MIN <= code <= INT_MAX
    ensures var (word, rest) := FirstWord(StatusLine(protocol, code) + "\r");
            word == protocol && LTrim(rest) != [] && ReadInt(rest) == code
    ensures '\n' !in StatusLine(protocol, code) + "\r"
  {
    var message := " " + StatusMessage(code) + "\r";
    var rest := " " + (Decimal(code) + message);
    assert StatusLine(protocol, code) + "\r" == protocol + rest;
    WordReadBack(protocol, rest);
    ReadIntOfDecimal(code, " ", message);
    NoBreaks(protocol, code);
  }

  lemma NoBreaks(protocol: string, code: int)
    requires IsWord(protocol)
    ensures '\n' !in StatusLine(protocol, code) + "\r"
  {
    StatusMessageHasNoBreak(code);
    DigitsAreDigits(Abs(code));
    assert '\n' !in Decimal(code);
  }

  // ---------------------------------------------------------------- responses on strings

  datatype Response = Response(protocol: string, code: int, fields: H.Fields, payload: string)

  /** A response that can be read back. */
  ghost predicate CanonicalResponse(r: Response) {
    && IsWord(r.protocol) && INT_MIN <= r.code <= INT_MAX
    && H.Canonical(r.fields) && CanonicalPayload(r.fields, r.payload)
  }

  /** operator<<: status line, header fields in the order of `keys`, blank line, payload. */
  function PrintResponse(r: Response, keys: seq<string>): string
    requires forall k :: k in keys ==> k in r.fields
  {
    StatusLine(r.protocol, r.code) + "\r\n" + (H.Print(r.fields, keys) + ("\r\n" + r.payload))
  }

  /** The first line has a word, and more than white space behind it. */
  predicate HasCode(s: string) {
    var (word, after) := FirstWord(GetLine(s, '\n').0); word != [] && LTrim(after) != []
  }

  /** ingestResponseHeader on a line that starts with a word: protocol, code, fields, and the rest of the stream. */
  function IngestHead(s: string, fields: H.Fields): (string, int, H.Fields, string) {
    var (line, rest) := GetLine(s, '\n');
    var (protocol, after) := FirstWord(line);
    var (fields', rest') := H.Ingest(rest, "", fields);
    (protocol, ReadInt(after), fields', rest')
  }

  /** ingestResponseHeader and ingestPayload into a new response. */
  function IngestResponse(s: string): Option<(Response, string)> {
    var (protocol, code, fields, rest) := IngestHead(s, map[]);
    match IngestPayload(rest, fields, "")
    case None => None
    case Some((payload, rest')) => Some((Response(protocol, code, fields, payload), rest'))
  }

  lemma HeadLine(protocol: string, code: int, more: string)
    requires IsWord(protocol)
    ensures GetLine(StatusLine(protocol, code) + "\r\n" + more, '\n') == (StatusLine(protocol, code) + "\r", more)
  {
    var line := StatusLine(protocol, code) + "\r";
    NoBreaks(protocol, code);
    assert StatusLine(protocol, code) + "\r\n" + more == line + ['\n'] + more;
    GetLineOf(line, '\n', more);
  }

  lemma HeadReadBack(protocol: string, code: int, more: string)
    requires IsWord(protocol) && INT_MIN <= code <= INT_MAX
    ensures var (line, rest) := GetLine(StatusLine(protocol, code) + "\r\n" + more, '\n');
            rest == more && FirstWord(line).0 == protocol && ReadInt(FirstWord(line).1) == code
    ensures HasCode(StatusLine(protocol, code) + "\r\n" + more)
  {
    HeadLine(protocol, code, more);
    StatusLineReadBack(protocol, code);
  }

  /** Printing and reading back gives the same response: protocol, code, every header field, and the payload. What
      follows the response in the stream stays there, after a chunked payload behind its last blank line. */
  lemma ResponseRoundTrip(r: Response, keys: seq<string>, rest: string)
    requires CanonicalResponse(r) && forall k :: k in keys <==> k in r.fields
    ensures IngestResponse(PrintResponse(r, keys) + rest) == Some((r, LeftOver(r.fields, rest)))
    ensures HasCode(PrintResponse(r, keys) + rest)
  {
    var fields := H.Print(r.fields, keys);
    var more := fields + ("\r\n" + (r.payload + rest));
    assert PrintResponse(r, keys) + rest == StatusLine(r.protocol, r.code) + "\r\n" + more;
    HeadReadBack(r.protocol, r.code, more);
    H.HeaderRoundTrip(r.fields, keys, r.payload + rest);
    PayloadRoundTrip(r.fields, r.payload, rest);
  }

  // ---------------------------------------------------------------- the class

  class HTTPResponse {
    var protocol: string
    var code: int
    const responseHeader: H.Header
    const payload: Payload

    constructor ()
      ensures fresh(responseHeader) && fresh(payload) && responseHeader.headers == map[] && payload.payload == []
    {
      protocol := "";
      code := *;
      responseHeader := new H.Header();
      payload := new Payload();
    }

    function Contents(): Response
      reads this, responseHeader, payload
    {
      Response(protocol, code, responseHeader.headers, payload.payload)
    }

    /** ingestResponseHeader. The code is left uninitialised unless some text follows the word for the protocol. */
    method IngestResponseHeader(instream: IStream)
      modifies this, responseHeader, instream
      ensures protocol == IngestHead(old(instream.rest), old(responseHeader.headers)).0
      ensures HasCode(old(instream.rest)) ==> code == IngestHead(old(instream.rest), old(responseHeader.headers)).1
      ensures responseHeader.headers == IngestHead(old(instream.rest), old(responseHeader.headers)).2
      ensures instream.rest == IngestHead(old(instream.rest), old(responseHeader.headers)).3
    {
      var responseCodeLine := instream.NextLine();
      var (word, after) := FirstWord(responseCodeLine);
      protocol := word;
      code := *;
      if word != [] && LTrim(after) != [] {
        code := ReadInt(after);
      }
      responseHeader.IngestHeader(instream);
    }

    method IngestPayload(instream: IStream) returns (ok: bool)
      modifies payload, instream
      ensures var r := HttpPayload.IngestPayload(old(instream.rest), responseHeader.headers, old(payload.payload));
              ok == r.Some? && (ok ==> (payload.payload, instream.rest) == r.value)
    {
      ok := payload.Ingest(responseHeader, instream);
    }

    /** operator<<, with the keys of the header in the order in which the map enumerates them. */
    method Publish(keys: seq<string>) returns (text: string)
      requires forall k :: k in keys <==> k in responseHeader.headers
      ensures text == PrintResponse(Contents(), keys)
    {
      text := StatusLine(protocol, code) + "\r\n";
      var fields := responseHeader.Publish(keys);
      text := text + (fields + ("\r\n" + payload.payload));
    }
  }

  /** A canonical response that is published and ingested again, as the cache does, comes back unchanged. */
  method CacheRoundTrip(r: HTTPResponse, keys: seq<string>) returns (copy: HTTPResponse)
    requires CanonicalResponse(r.Contents()) && forall k :: k in keys <==> k in r.responseHeader.headers
    ensures fresh(copy) && copy.Contents() == r.Contents()
  {
    var text := r.Publish(keys);
    copy := IngestText(text);
    ResponseRoundTrip(r.Contents(), keys, "");
    assert text + "" == text;
  }

  /** A new response ingests a text whose status line has a protocol and a code. */
  method IngestText(text: string) returns (copy: HTTPResponse)
    ensures fresh(copy)
    ensures HasCode(text) && IngestResponse(text).Some? ==>
              copy.Contents() == IngestResponse(text).value.0
  {
    var instream := new IStream(text);
    copy := new HTTPResponse();
    copy.IngestResponseHeader(instream);
    var _ := copy.IngestPayload(instream);
  }
}
