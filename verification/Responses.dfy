/**
 The responses this server writes, and a client that reads them back.

 A response is a block of header lines, an empty line and a body. The client knows only whether
 its request was a HEAD; it finds the end of each response by section 6.3 of RFC 9112.
 */
module Responses {
  import opened Bytes

  // ---------------------------------------------------------------- header blocks

  /** No line break inside. */
  predicate OneLine(s: string) {
    '\r' !in s && '\n' !in s
  }

  ghost predicate HeaderLines(lines: seq<string>) {
    forall i :: 0 <= i < |lines| ==> OneLine(lines[i]) && lines[i] != ""
  }

  function Block(lines: seq<string>): string {
    if lines == [] then "" else lines[0] + CRLF + Block(lines[1..])
  }

  function Field(name: string, value: string): string {
    name + ": " + value
  }

  /** Header lines that are present only under a condition. */
  function Only(present: bool, line: string): seq<string> {
    if present then [line] else []
  }

  lemma {:induction false} BlockAppend(a: seq<string>, b: seq<string>)
    ensures Block(a + b) == Block(a) + Block(b)
  {
    if a == [] {
      assert a + b == b;
    } else {
      assert (a + b)[1..] == a[1..] + b;
      BlockAppend(a[1..], b);
    }
  }

  lemma HeaderLinesAppend(a: seq<string>, b: seq<string>)
    requires HeaderLines(a) && HeaderLines(b)
    ensures HeaderLines(a + b)
  {
  }

  // ---------------------------------------------------------------- the client

  datatype Response = Response(lines: seq<string>, body: string)
  datatype Read = Read(response: Response, rest: string)

  /** Header lines up to and including the empty line. */
  function ReadLines(stream: string): Option<(seq<string>, string)>
    decreases |stream|
  {
    FindSpec(stream, CRLF);
    match Find(stream, CRLF)
    case None => None
    case Some(0) => Some(([], stream[2..]))
    case Some(k) =>
      match ReadLines(stream[k + 2..])
      case None => None
      case Some((lines, rest)) => Some(([stream[..k]] + lines, rest))
  }

  predicate HasName(line: string, name: string) {
    FindSpec(line, ":");
    match Find(line, ":")
    case None => false
    case Some(k) => EqIgnoreCase(line[..k], name)
  }

  function ValueOf(line: string): string {
    FindSpec(line, ":");
    match Find(line, ":")
    case None => ""
    case Some(k) => Trim(line[k + 1..])
  }

  /** The value of the first field with this name. */
  function FieldValue(lines: seq<string>, name: string): Option<string> {
    if lines == [] then None
    else if HasName(lines[0], name) then Some(ValueOf(lines[0]))
    else FieldValue(lines[1..], name)
  }

  /** The length of the body that follows a header block, if it is known. */
  function BodyLength(lines: seq<string>, isHead: bool): Option<nat>
    requires lines != []
  {
    if isHead || StartsWith(lines[0], "HTTP/1.1 304") then Some(0)
    else match FieldValue(lines[1..], "Content-Length")
      case None => None
      case Some(v) => ParseDec(v)
  }

  /** Read one response off a stream. */
  function ReadResponse(stream: string, isHead: bool): Option<Read> {
    match ReadLines(stream)
    case None => None
    case Some((lines, rest)) =>
      if lines == [] then None
      else match BodyLength(lines, isHead)
        case None => None
        case Some(n) => if n > |rest| then None else Some(Read(Response(lines, rest[..n]), rest[n..]))
  }

  /** Read one response for each request; the stream must end with the last of them. */
  function ReadAll(stream: string, areHead: seq<bool>): Option<seq<Response>>
    decreases |areHead|
  {
    if areHead == [] then (if stream == "" then Some([]) else None)
    else match ReadResponse(stream, areHead[0])
      case None => None
      case Some(read) =>
        match ReadAll(read.rest, areHead[1..])
        case None => None
        case Some(others) => Some([read.response] + others)
  }

  // ---------------------------------------------------------------- self-delimiting responses

  function ConnectionValue(keepAlive: bool): string {
    if keepAlive then "keep-alive" else "close"
  }

  /** `wire` is a response that a client can delimit, and whose Connection field says `keepAlive`. */
  ghost predicate Framed(wire: string, r: Response, isHead: bool, keepAlive: bool) {
    && r.lines != [] && HeaderLines(r.lines)
    && wire == Block(r.lines) + CRLF + r.body
    && BodyLength(r.lines, isHead) == Some(|r.body|)
    && FieldValue(r.lines[1..], "Connection") == Some(ConnectionValue(keepAlive))
  }

  lemma FindCRLF(line: string, rest: string)
    requires OneLine(line)
    ensures Find(line + CRLF + rest, CRLF) == Some(|line|)
  {
    var s := line + CRLF + rest;
    assert s[|line|..|line| + 2] == CRLF;
    forall j: nat | j < |line| ensures !At(s, j, CRLF) {
      assert s[j] == line[j] != '\r';
      assert j + 2 <= |s| ==> s[j..j + 2][0] == s[j];
    }
    FindUnique(s, CRLF, Some(|line|));
  }

  lemma ReadLinesStep(line: string, stream: string)
    requires OneLine(line) && line != ""
    ensures ReadLines(line + CRLF + stream) == match ReadLines(stream)
                                               case None => None
                                               case Some((lines, rest)) => Some(([line] + lines, rest))
  {
    var s := line + CRLF + stream;
    FindCRLF(line, stream);
    assert s[..|line|] == line && s[|line| + 2..] == stream;
  }

  lemma ReadLinesEnd(rest: string)
    ensures ReadLines(CRLF + rest) == Some(([], rest))
  {
    FindCRLF("", rest);
    assert "" + CRLF + rest == CRLF + rest;
    assert (CRLF + rest)[2..] == rest;
  }

  lemma {:induction false} ReadLinesOfBlock(lines: seq<string>, rest: string)
    requires HeaderLines(lines)
    ensures ReadLines(Block(lines) + CRLF + rest) == Some((lines, rest))
    decreases lines
  {
    if lines == [] {
      ReadLinesEnd(rest);
      assert Block(lines) + CRLF + rest == CRLF + rest;
    } else {
      var stream := Block(lines[1..]) + CRLF + rest;
      assert Block(lines) + CRLF + rest == lines[0] + CRLF + stream;
      ReadLinesOfBlock(lines[1..], rest);
      ReadLinesStep(lines[0], stream);
      assert lines == [lines[0]] + lines[1..];
    }
  }

  /** A framed response is read back exactly, whatever follows it on the stream. */
  lemma ReadFramed(wire: string, r: Response, isHead: bool, keepAlive: bool, rest: string)
    requires Framed(wire, r, isHead, keepAlive)
    ensures ReadResponse(wire + rest, isHead) == Some(Read(r, rest))
  {
    assert wire + rest == Block(r.lines) + CRLF + (r.body + rest);
    ReadLinesOfBlock(r.lines, r.body + rest);
    assert (r.body + rest)[..|r.body|] == r.body && (r.body + rest)[|r.body|..] == rest;
  }

  ghost predicate Delimited(wire: string, r: Response, isHead: bool) {
    Framed(wire, r, isHead, true) || Framed(wire, r, isHead, false)
  }

  /** A response on the wire, and whether the request it answers was a HEAD. */
  datatype Sent = Sent(wire: string, response: Response, isHead: bool)

  ghost predicate AllDelimited(sent: seq<Sent>) {
    forall i :: 0 <= i < |sent| ==> Delimited(sent[i].wire, sent[i].response, sent[i].isHead)
  }

  function SentWire(sent: seq<Sent>): string {
    if sent == [] then "" else sent[0].wire + SentWire(sent[1..])
  }

  function HeadFlags(sent: seq<Sent>): seq<bool> {
    if sent == [] then [] else [sent[0].isHead] + HeadFlags(sent[1..])
  }

  function SentResponses(sent: seq<Sent>): seq<Response> {
    if sent == [] then [] else [sent[0].response] + SentResponses(sent[1..])
  }

  lemma ReadDelimited(wire: string, r: Response, isHead: bool, rest: string)
    requires Delimited(wire, r, isHead)
    ensures ReadResponse(wire + rest, isHead) == Some(Read(r, rest))
  {
    if Framed(wire, r, isHead, true) {
      ReadFramed(wire, r, isHead, true, rest);
    } else {
      ReadFramed(wire, r, isHead, false, rest);
    }
  }

  lemma ReadAllStep(wire: string, r: Response, isHead: bool, rest: string, areHead: seq<bool>)
    requires Delimited(wire, r, isHead)
    ensures ReadAll(wire + rest, [isHead] + areHead) == match ReadAll(rest, areHead)
                                                        case None => None
                                                        case Some(others) => Some([r] + others)
  {
    ReadDelimited(wire, r, isHead, rest);
    assert ([isHead] + areHead)[1..] == areHead;
  }

  /** A stream of framed responses splits back into exactly those responses. */
  lemma {:induction false} ReadAllDelimited(sent: seq<Sent>)
    requires AllDelimited(sent)
    ensures ReadAll(SentWire(sent), HeadFlags(sent)) == Some(SentResponses(sent))
    decreases |sent|
  {
    if sent != [] {
      ReadAllDelimited(sent[1..]);
      ReadAllStep(sent[0].wire, sent[0].response, sent[0].isHead, SentWire(sent[1..]), HeadFlags(sent[1..]));
    }
  }

  lemma {:induction false} SentResponsesLength(sent: seq<Sent>)
    ensures |SentResponses(sent)| == |sent|
  {
    if sent != [] {
      SentResponsesLength(sent[1..]);
    }
  }

  lemma {:induction false} ReadAllLength(stream: string, areHead: seq<bool>)
    ensures ReadAll(stream, areHead).Some? ==> |ReadAll(stream, areHead).value| == |areHead|
    decreases |areHead|
  {
    if areHead != [] && ReadResponse(stream, areHead[0]).Some? {
      ReadAllLength(ReadResponse(stream, areHead[0]).value.rest, areHead[1..]);
    }
  }

  /** Framed responses are read off a stream one by one, whatever is left for the requests after them. */
  lemma {:induction false} ReadAllPrefix(sent: seq<Sent>, tail: string, areHead: seq<bool>)
    requires AllDelimited(sent)
    ensures ReadAll(SentWire(sent) + tail, HeadFlags(sent) + areHead) == match ReadAll(tail, areHead)
                                                                       case None => None
                                                                       case Some(others) => Some(SentResponses(sent) + others)
    decreases |sent|
  {
    if sent == [] {
      assert SentWire(sent) + tail == tail && HeadFlags(sent) + areHead == areHead;
      NoneBefore(ReadAll(tail, areHead));
    } else {
      var s, more, flags := sent[0], SentWire(sent[1..]) + tail, HeadFlags(sent[1..]) + areHead;
      ReadAllPrefix(sent[1..], tail, areHead);
      Assoc(s.wire, SentWire(sent[1..]), tail);
      assert HeadFlags(sent) + areHead == [s.isHead] + flags;
      ReadAllStep(s.wire, s.response, s.isHead, more, flags);
      OneBefore(s.response, SentResponses(sent[1..]), ReadAll(tail, areHead));
    }
  }

  lemma NoneBefore(others: Option<seq<Response>>)
    ensures others.Some? ==> [] + others.value == others.value
  {
  }

  lemma OneBefore(first: Response, some: seq<Response>, others: Option<seq<Response>>)
    ensures others.Some? ==> [first] + (some + others.value) == ([first] + some) + others.value
  {
  }
}
