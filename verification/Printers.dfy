/**
 The printers of the server (`build_header`, `build_status`, `send_redirect`, `send_304`, the
 ACME token answer): every one is a status line, some fields, a Connection field and the
 security headers, so one lemma shows all of them self-delimiting.
 */
module Printers {
  import opened Bytes
  import opened Responses

  // ---------------------------------------------------------------- security headers

  datatype HeaderConfig = HeaderConfig(hstsMaxAge: nat, includeSubdomains: bool, preload: bool, csp: string)

  /** The four lines that every configuration has. */
  function FixedLines(): seq<string> {
    [Field("X-Content-Type-Options", "nosniff")]
    + [Field("X-Frame-Options", "SAMEORIGIN")]
    + [Field("Referrer-Policy", "strict-origin-when" + "-cross-origin")]
    + [Field("Permissions-Policy", "camera=(), " + "microphone=(), " + "geolocation=()")]
  }

  function HstsValue(h: HeaderConfig): string {
    "max-age=" + Dec(h.hstsMaxAge)
    + (if h.includeSubdomains then "; includeSubDomains" else "")
    + (if h.preload then "; preload" else "")
  }

  function SecurityLines(h: HeaderConfig): seq<string> {
    FixedLines() + Only(h.hstsMaxAge > 0,
           Field("Strict-Transport-" + "Security", HstsValue(h)))
    + Only(h.csp != "", Field("Content-Security-" + "Policy", h.csp))
  }

  /** The block that every response ends its headers with. */
  function Render(h: HeaderConfig): string {
    Block(SecurityLines(h))
  }

  lemma FieldIsLine(name: string, value: string)
    requires OneLine(name) && OneLine(value)
    ensures HeaderLines([Field(name, value)])
  {
  }

  lemma TypeOptionsIsLine()
    ensures HeaderLines([Field("X-Content-Type-Options", "nosniff")])
  {
    FieldIsLine("X-Content-Type-Options", "nosniff");
  }

  lemma FrameOptionsIsLine()
    ensures HeaderLines([Field("X-Frame-Options", "SAMEORIGIN")])
  {
    FieldIsLine("X-Frame-Options", "SAMEORIGIN");
  }

  lemma ReferrerIsLine()
    ensures HeaderLines([Field("Referrer-Policy", "strict-origin-when" + "-cross-origin")])
  {
    assert OneLine("strict-origin-when") && OneLine("-cross-origin");
    FieldIsLine("Referrer-Policy", "strict-origin-when" + "-cross-origin");
  }

  lemma PermissionsIsLine()
    ensures HeaderLines([Field("Permissions-Policy", "camera=(), " + "microphone=(), " + "geolocation=()")])
  {
    assert OneLine("camera=(), ") && OneLine("microphone=(), ") && OneLine("geolocation=()");
    FieldIsLine("Permissions-Policy", "camera=(), " + "microphone=(), " + "geolocation=()");
  }

  lemma HstsIsLine(value: string)
    requires OneLine(value)
    ensures HeaderLines([Field("Strict-Transport-" + "Security", value)])
  {
    assert OneLine("Strict-Transport-") && OneLine("Security");
    FieldIsLine("Strict-Transport-" + "Security", value);
  }

  lemma CspIsLine(value: string)
    requires OneLine(value)
    ensures HeaderLines([Field("Content-Security-" + "Policy", value)])
  {
    assert OneLine("Content-Security-") && OneLine("Policy");
    FieldIsLine("Content-Security-" + "Policy", value);
  }

  lemma HstsValueIsText(h: HeaderConfig)
    ensures OneLine(HstsValue(h))
  {
    assert OneLine("max-age=") && OneLine("; includeSubDomains") && OneLine("; preload");
  }

  lemma JoinFour(a: seq<string>, b: seq<string>, c: seq<string>, d: seq<string>)
    requires HeaderLines(a) && HeaderLines(b) && HeaderLines(c) && HeaderLines(d)
    ensures HeaderLines(a + b + c + d)
  {
  }

  lemma FixedLinesAreLines()
    ensures HeaderLines(FixedLines())
  {
    TypeOptionsIsLine();
    FrameOptionsIsLine();
    ReferrerIsLine();
    PermissionsIsLine();
    JoinFour([Field("X-Content-Type-Options", "nosniff")], [Field("X-Frame-Options", "SAMEORIGIN")],
             [Field("Referrer-Policy", "strict-origin-when" + "-cross-origin")],
             [Field("Permissions-Policy", "camera=(), " + "microphone=(), " + "geolocation=()")]);
  }

  /** Whatever the configuration, the block is whole header lines: no value ends it early. */
  lemma SecurityLinesAreLines(h: HeaderConfig)
    requires OneLine(h.csp)
    ensures HeaderLines(SecurityLines(h))
  {
    FixedLinesAreLines();
    HstsValueIsText(h);
    HstsIsLine(HstsValue(h));
    CspIsLine(h.csp);
    JoinFour(FixedLines(), Only(h.hstsMaxAge > 0, Field("Strict-Transport-" + "Security", HstsValue(h))),
             Only(h.csp != "", Field("Content-Security-" + "Policy", h.csp)), []);
  }

  // ---------------------------------------------------------------- the common layout

  /** A header block: status line, fields, optional Content-Length, fields, Connection, more lines. */
  datatype Layout = Layout(status: string, before: seq<(string, string)>, length: Option<nat>, after: seq<(string, string)>, last: seq<string>)

  function Fields(pairs: seq<(string, string)>): seq<string> {
    if pairs == [] then [] else [Field(pairs[0].0, pairs[0].1)] + Fields(pairs[1..])
  }

  function LengthLines(n: Option<nat>): seq<string> {
    match n
    case None => []
    case Some(n) => [Field("Content-Length", Dec(n))]
  }

  /** The lines of a layout that come before its Connection line. */
  function UpperLines(l: Layout): seq<string> {
    [l.status] + (Fields(l.before) + (LengthLines(l.length) + Fields(l.after)))
  }

  function ConnectionLine(keepAlive: bool): string {
    Field("Connection", ConnectionValue(keepAlive))
  }

  function Lines(l: Layout, keepAlive: bool): seq<string> {
    UpperLines(l) + ([ConnectionLine(keepAlive)] + l.last)
  }

  function Header(l: Layout, keepAlive: bool): string {
    Block(Lines(l, keepAlive)) + CRLF
  }

  // ---------------------------------------------------------------- layouts are framed

  /** Field names and values stay on one line, and no name could be taken for Content-Length or Connection. */
  ghost predicate PlainFields(pairs: seq<(string, string)>) {
    forall i :: 0 <= i < |pairs| ==> PlainField(pairs[i])
  }

  ghost predicate PlainField(f: (string, string)) {
    && OneLine(f.0) && OneLine(f.1) && ':' !in f.0
    && |f.0| != |"Content-Length"| && |f.0| != |"Connection"|
  }

  ghost predicate PlainLayout(l: Layout) {
    && l.status != "" && OneLine(l.status)
    && PlainFields(l.before) && PlainFields(l.after) && HeaderLines(l.last)
    && (l.length.None? <==> StartsWith(l.status, "HTTP/1.1 304"))
  }

  lemma NamedField(name: string, value: string, sought: string)
    requires ':' !in name
    ensures HasName(Field(name, value), sought) == EqIgnoreCase(name, sought)
    ensures ValueOf(Field(name, value)) == Trim(" " + value)
  {
    var line := Field(name, value);
    assert line[|name|..|name| + 1] == ":";
    forall j: nat | j < |name| ensures !At(line, j, ":") {
      assert line[j] == name[j] != ':';
      assert line[j..j + 1] == [line[j]];
    }
    FindUnique(line, ":", Some(|name|));
    assert line[..|name|] == name && line[|name| + 1..] == " " + value;
  }

  lemma {:induction false} SkipFields(pairs: seq<(string, string)>, more: seq<string>, sought: string)
    requires PlainFields(pairs)
    requires |sought| == |"Content-Length"| || |sought| == |"Connection"|
    ensures FieldValue(Fields(pairs) + more, sought) == FieldValue(more, sought)
  {
    if pairs == [] {
      assert Fields(pairs) + more == more;
    } else {
      assert PlainField(pairs[0]);
      NamedField(pairs[0].0, pairs[0].1, sought);
      assert (Fields(pairs) + more)[1..] == Fields(pairs[1..]) + more;
      SkipFields(pairs[1..], more, sought);
    }
  }

  lemma {:induction false} FieldsAreLines(pairs: seq<(string, string)>)
    requires PlainFields(pairs)
    ensures HeaderLines(Fields(pairs))
  {
    if pairs != [] {
      assert PlainField(pairs[0]);
      FieldsAreLines(pairs[1..]);
    }
  }

  lemma HitField(name: string, value: string, more: seq<string>)
    requires ':' !in name && value != "" && IsVisible(value[0]) && IsVisible(value[|value| - 1])
    ensures FieldValue([Field(name, value)] + more, name) == Some(value)
  {
    NamedField(name, value, name);
    TrimOneSpace(value);
  }

  lemma LengthField(n: nat, more: seq<string>)
    ensures FieldValue(LengthLines(Some(n)) + more, "Content-Length") == Some(Dec(n))
    ensures FieldValue(LengthLines(Some(n)) + more, "Connection") == FieldValue(more, "Connection")
    ensures HeaderLines(LengthLines(Some(n)))
  {
    HitField("Content-Length", Dec(n), more);
    NamedField("Content-Length", Dec(n), "Connection");
    assert (LengthLines(Some(n)) + more)[1..] == more;
  }

  lemma ConnectionIsLine(keepAlive: bool)
    ensures HeaderLines([ConnectionLine(keepAlive)])
  {
    assert OneLine("Connection") && OneLine(": ") && OneLine(ConnectionValue(keepAlive));
  }

  lemma LengthIsLine(n: Option<nat>)
    ensures HeaderLines(LengthLines(n))
  {
    if n.Some? {
      LengthField(n.value, []);
    }
  }

  lemma LinesAreHeaderLines(l: Layout, keepAlive: bool)
    requires PlainLayout(l)
    ensures HeaderLines(Lines(l, keepAlive))
  {
    FieldsAreLines(l.before);
    LengthIsLine(l.length);
    FieldsAreLines(l.after);
    ConnectionIsLine(keepAlive);
    HeaderLinesAppend(LengthLines(l.length), Fields(l.after));
    HeaderLinesAppend(Fields(l.before), LengthLines(l.length) + Fields(l.after));
    HeaderLinesAppend([l.status], Fields(l.before) + (LengthLines(l.length) + Fields(l.after)));
    HeaderLinesAppend([ConnectionLine(keepAlive)], l.last);
    HeaderLinesAppend(UpperLines(l), [ConnectionLine(keepAlive)] + l.last);
  }

  /** All lines but the status line, grouped as the lookups below walk through them. */
  lemma LinesAfterStatus(l: Layout, keepAlive: bool)
    ensures Lines(l, keepAlive)[1..]
            == Fields(l.before) + (LengthLines(l.length) + (Fields(l.after) + ([ConnectionLine(keepAlive)] + l.last)))
  {
  }

  lemma ConnectionOfLayout(l: Layout, keepAlive: bool)
    requires PlainLayout(l)
    ensures FieldValue(Lines(l, keepAlive)[1..], "Connection") == Some(ConnectionValue(keepAlive))
  {
    var tail := [ConnectionLine(keepAlive)] + l.last;
    var middle := Fields(l.after) + tail;
    LinesAfterStatus(l, keepAlive);
    SkipFields(l.before, LengthLines(l.length) + middle, "Connection");
    if l.length.Some? {
      LengthField(l.length.value, middle);
    } else {
      assert LengthLines(l.length) + middle == middle;
    }
    SkipFields(l.after, tail, "Connection");
    HitField("Connection", ConnectionValue(keepAlive), l.last);
  }

  lemma LengthOfLayout(l: Layout, keepAlive: bool, isHead: bool)
    requires PlainLayout(l)
    ensures BodyLength(Lines(l, keepAlive), isHead) == Some(if isHead || l.length.None? then 0 else l.length.value)
  {
    if l.length.Some? && !isHead {
      var middle := Fields(l.after) + ([ConnectionLine(keepAlive)] + l.last);
      LinesAfterStatus(l, keepAlive);
      SkipFields(l.before, LengthLines(l.length) + middle, "Content-Length");
      LengthField(l.length.value, middle);
      ParseDecOfDec(l.length.value);
    }
  }

  /** Every response of this layout is self-delimiting and says whether the connection goes on. */
  lemma LayoutFramed(l: Layout, keepAlive: bool, body: string, isHead: bool)
    requires PlainLayout(l)
    requires |body| == if isHead || l.length.None? then 0 else l.length.value
    ensures Framed(Header(l, keepAlive) + body, Response(Lines(l, keepAlive), body), isHead, keepAlive)
  {
    LinesAreHeaderLines(l, keepAlive);
    ConnectionOfLayout(l, keepAlive);
    LengthOfLayout(l, keepAlive, isHead);
  }

  // ---------------------------------------------------------------- status responses (4xx, 5xx)

  datatype Page = BadRequest | NotFound | MethodNotAllowed | RequestTimeout | HeadersTooLarge | InternalError

  function Code(page: Page): nat {
    match page
    case BadRequest => 400
    case NotFound => 404
    case MethodNotAllowed => 405
    case RequestTimeout => 408
    case HeadersTooLarge => 431
    case InternalError => 500
  }

  function Reason(page: Page): string {
    match page
    case BadRequest => "Bad Request"
    case NotFound => "Not Found"
    case MethodNotAllowed => "Method Not Allowed"
    case RequestTimeout => "Request Timeout"
    case HeadersTooLarge => "Request Header " + "Fields Too Large"
    case InternalError => "Internal " + "Server Error"
  }

  function Title(page: Page): string {
    Dec(Code(page)) + " " + Reason(page)
  }

  function PageBody(page: Page): string {
    "<!doctype html><title>" + Title(page) + "</title><h1>" + Title(page) + "</h1>\n"
  }

  function PageLayout(page: Page, security: seq<string>): Layout {
    Layout("HTTP/1.1 " + Title(page), [("Content-Type", "text/html; " + "charset=utf-8")], Some(|PageBody(page)|),
           [("Cache-Control", "no-store")], Only(page.MethodNotAllowed?, Field("Allow", "GET, HEAD")) + security)
  }

  /** One buffer that holds header and body; a HEAD answer is the same buffer truncated. */
  datatype Prebuilt = Prebuilt(full: string, headerLen: nat)

  datatype StatusResponse = StatusResponse(ka: Prebuilt, close: Prebuilt) {
    function Bytes(keepAlive: bool, isHead: bool): string
      requires ka.headerLen <= |ka.full| && close.headerLen <= |close.full|
    {
      var p := if keepAlive then ka else close;
      if isHead then p.full[..p.headerLen] else p.full
    }

    function RetainedBytes(): nat {
      |ka.full| + |close.full|
    }
  }

  function BuildForm(page: Page, security: seq<string>, keepAlive: bool): (p: Prebuilt)
    ensures p.headerLen <= |p.full|
  {
    var head := Header(PageLayout(page, security), keepAlive);
    Prebuilt(head + PageBody(page), |head|)
  }

  function BuildStatus(page: Page, security: seq<string>): (r: StatusResponse)
    ensures r.ka.headerLen <= |r.ka.full| && r.close.headerLen <= |r.close.full|
  {
    StatusResponse(BuildForm(page, security, true), BuildForm(page, security, false))
  }

  /** One precomputed response for each status that the server generates. */
  datatype ErrorPages = ErrorPages(
    badRequest: StatusResponse, notFound: StatusResponse, methodNotAllowed: StatusResponse,
    requestTimeout: StatusResponse, headersTooLarge: StatusResponse, internalError: StatusResponse)
  {
    function RetainedBytes(): nat {
      badRequest.RetainedBytes() + notFound.RetainedBytes() + methodNotAllowed.RetainedBytes()
      + requestTimeout.RetainedBytes() + headersTooLarge.RetainedBytes() + internalError.RetainedBytes()
    }

    function Of(page: Page): StatusResponse {
      match page
      case BadRequest => badRequest
      case NotFound => notFound
      case MethodNotAllowed => methodNotAllowed
      case RequestTimeout => requestTimeout
      case HeadersTooLarge => headersTooLarge
      case InternalError => internalError
    }
  }

  function NewErrorPages(security: seq<string>): ErrorPages {
    ErrorPages(BuildStatus(BadRequest, security), BuildStatus(NotFound, security), BuildStatus(MethodNotAllowed, security),
               BuildStatus(RequestTimeout, security), BuildStatus(HeadersTooLarge, security), BuildStatus(InternalError, security))
  }

  /** The page of each status is in the set, under its own name. */
  lemma PagesAreBuilt(page: Page, security: seq<string>)
    ensures NewErrorPages(security).Of(page) == BuildStatus(page, security)
  {
  }

  lemma CodeIsNot3xx(page: Page)
    ensures OneLine(Dec(Code(page))) && Dec(Code(page))[0] != '3'
  {
    assert Dec(Code(page) / 10 / 10) == [Digit(Code(page) / 100)];
    assert Dec(Code(page) / 10) == Dec(Code(page) / 10 / 10) + [Digit(Code(page) / 10 % 10)];
  }

  lemma NoStoreIsPlain()
    ensures PlainField(("Cache-Control", "no-store"))
  {
  }

  lemma HtmlTypeIsPlain()
    ensures PlainField(("Content-Type", "text/html; " + "charset=utf-8"))
  {
    assert OneLine("text/html; ") && OneLine("charset=utf-8");
  }

  lemma TokenTypeIsPlain()
    ensures PlainField(("Content-Type", "text/plain; " + "charset=utf-8"))
  {
    assert OneLine("text/plain; ") && OneLine("charset=utf-8");
  }

  lemma AllowIsLine(page: Page)
    ensures HeaderLines(Only(page.MethodNotAllowed?, Field("Allow", "GET, HEAD")))
  {
    assert OneLine("Allow") && OneLine(": ") && OneLine("GET, HEAD");
  }

  lemma LongReasonsAreText()
    ensures OneLine("Request Header ") && OneLine("Fields Too Large") && OneLine("Internal ") && OneLine("Server Error")
  {
  }

  lemma ReasonIsText(page: Page)
    ensures OneLine(Reason(page))
  {
    match page {
      case HeadersTooLarge => LongReasonsAreText();
      case InternalError => LongReasonsAreText();
      case _ =>
    }
  }

  lemma TitleIsPlain(page: Page)
    ensures var status := "HTTP/1.1 " + Title(page);
            status != "" && OneLine(status) && !StartsWith(status, "HTTP/1.1 304")
  {
    var code, reason := Dec(Code(page)), Reason(page);
    CodeIsNot3xx(page);
    ReasonIsText(page);
    assert OneLine(code + " " + reason);
    StatusStart(code + " " + reason);
  }

  lemma StatusStart(title: string)
    requires OneLine(title) && title != "" && title[0] != '3'
    ensures OneLine("HTTP/1.1 " + title) && !StartsWith("HTTP/1.1 " + title, "HTTP/1.1 304")
  {
    assert ("HTTP/1.1 " + title)[9] == title[0];
    assert "HTTP/1.1 304"[9] == '3';
  }

  lemma PageIsPlain(page: Page, security: seq<string>)
    requires HeaderLines(security)
    ensures PlainLayout(PageLayout(page, security))
  {
    TitleIsPlain(page);
    HtmlTypeIsPlain();
    NoStoreIsPlain();
    AllowIsLine(page);
    HeaderLinesAppend(Only(page.MethodNotAllowed?, Field("Allow", "GET, HEAD")), security);
  }

  /** A status response is framed in all four forms; the body is dropped for a HEAD only. */
  lemma StatusFramed(page: Page, security: seq<string>, keepAlive: bool, isHead: bool)
    requires HeaderLines(security)
    ensures Framed(BuildStatus(page, security).Bytes(keepAlive, isHead),
                   Response(Lines(PageLayout(page, security), keepAlive), if isHead then "" else PageBody(page)), isHead, keepAlive)
  {
    StatusBytes(page, security, keepAlive, isHead);
    PageIsPlain(page, security);
    LayoutFramed(PageLayout(page, security), keepAlive, if isHead then "" else PageBody(page), isHead);
  }

  lemma StatusBytes(page: Page, security: seq<string>, keepAlive: bool, isHead: bool)
    ensures BuildStatus(page, security).Bytes(keepAlive, isHead)
            == Header(PageLayout(page, security), keepAlive) + if isHead then "" else PageBody(page)
  {
    var header, body := Header(PageLayout(page, security), keepAlive), PageBody(page);
    assert (header + body)[..|header|] == header + "";
  }

  // ---------------------------------------------------------------- 301, 304, ACME token

  function RedirectLayout(location: string, security: seq<string>): Layout {
    Layout("HTTP/1.1 301 " + "Moved Permanently", [("Location", location)], Some(0), [], security)
  }

  function Optional(name: string, value: Option<string>): seq<(string, string)> {
    match value
    case None => []
    case Some(v) => [(name, v)]
  }

  /** The fields that a 200 and the 304 for it share. */
  function VaryFields(encoding: Option<string>, vary: bool, cacheControl: string): seq<(string, string)> {
    Optional("Content-Encoding", encoding)
    + (if vary then [("Vary", "Accept-Encoding")] else [])
    + [("Cache-Control", cacheControl)]
  }

  function Quoted(etag: string): string {
    "\"" + etag + "\""
  }

  function NotModifiedLayout(etag: string, encoding: Option<string>, vary: bool, cacheControl: string, security: seq<string>): Layout {
    Layout("HTTP/1.1 304 " + "Not Modified", [("ETag", Quoted(etag))] + VaryFields(encoding, vary, cacheControl), None, [], security)
  }

  function TokenLayout(length: nat, security: seq<string>): Layout {
    Layout("HTTP/1.1 200 OK", [("Content-Type", "text/plain; " + "charset=utf-8")], Some(length), [("Cache-Control", "no-store")], security)
  }

  function OkLayout(mime: string, length: nat, etag: string, encoding: Option<string>, vary: bool, cacheControl: string, security: seq<string>): Layout {
    Layout("HTTP/1.1 200 OK", [("Content-Type", mime)], Some(length),
           [("ETag", Quoted(etag))] + VaryFields(encoding, vary, cacheControl), security)
  }

  /** The values that go into the headers of a cached entry: one line each, and free of capital C. */
  ghost predicate EntryText(s: string) {
    OneLine(s) && 'C' !in s
  }

  lemma PlainAppend(a: seq<(string, string)>, b: seq<(string, string)>)
    requires PlainFields(a) && PlainFields(b)
    ensures PlainFields(a + b)
  {
    forall i | 0 <= i < |a + b| ensures PlainField((a + b)[i]) {
      assert i < |a| ==> PlainField(a[i]);
      assert i >= |a| ==> PlainField(b[i - |a|]);
    }
  }

  lemma VaryFieldsPlain(encoding: Option<string>, vary: bool, cacheControl: string)
    requires OneLine(cacheControl) && (encoding.Some? ==> OneLine(encoding.value))
    ensures PlainFields(VaryFields(encoding, vary, cacheControl))
  {
    var a := Optional("Content-Encoding", encoding);
    var b := if vary then [("Vary", "Accept-Encoding")] else [];
    assert PlainFields(a) by { assert encoding.Some? ==> PlainField(a[0]); }
    assert PlainFields(b) by { assert vary ==> PlainField(b[0]); }
    assert PlainField(("Cache-Control", cacheControl));
    PlainAppend(a, b);
    PlainAppend(a + b, [("Cache-Control", cacheControl)]);
  }

  lemma RedirectFramed(location: string, security: seq<string>, keepAlive: bool, isHead: bool)
    requires OneLine(location) && HeaderLines(security)
    ensures var l := RedirectLayout(location, security);
            Framed(Header(l, keepAlive), Response(Lines(l, keepAlive), ""), isHead, keepAlive)
  {
    var l := RedirectLayout(location, security);
    assert PlainField(l.before[0]);
    assert OneLine("HTTP/1.1 301 ") && OneLine("Moved Permanently");
    assert l.status[11] == '1' && "HTTP/1.1 304"[11] == '4';
    LayoutFramed(l, keepAlive, "", isHead);
    assert Header(l, keepAlive) + "" == Header(l, keepAlive);
  }

  lemma NotModifiedFramed(etag: string, encoding: Option<string>, vary: bool, cacheControl: string, security: seq<string>, keepAlive: bool, isHead: bool)
    requires OneLine(etag) && OneLine(cacheControl) && (encoding.Some? ==> OneLine(encoding.value)) && HeaderLines(security)
    ensures var l := NotModifiedLayout(etag, encoding, vary, cacheControl, security);
            Framed(Header(l, keepAlive), Response(Lines(l, keepAlive), ""), isHead, keepAlive)
  {
    var l := NotModifiedLayout(etag, encoding, vary, cacheControl, security);
    assert PlainField(("ETag", Quoted(etag)));
    VaryFieldsPlain(encoding, vary, cacheControl);
    PlainAppend([("ETag", Quoted(etag))], VaryFields(encoding, vary, cacheControl));
    assert OneLine("HTTP/1.1 304 ") && OneLine("Not Modified");
    assert l.status[..12] == "HTTP/1.1 304";
    LayoutFramed(l, keepAlive, "", isHead);
    assert Header(l, keepAlive) + "" == Header(l, keepAlive);
  }

  lemma OkStatusIsPlain()
    ensures OneLine("HTTP/1.1 200 OK") && !StartsWith("HTTP/1.1 200 OK", "HTTP/1.1 304")
  {
    assert "HTTP/1.1 200 OK"[9] == '2' && "HTTP/1.1 304"[9] == '3';
  }

  lemma TokenFramed(token: string, security: seq<string>, keepAlive: bool, isHead: bool)
    requires HeaderLines(security)
    ensures var l := TokenLayout(|token|, security);
            var body := if isHead then "" else token;
            Framed(Header(l, keepAlive) + body, Response(Lines(l, keepAlive), body), isHead, keepAlive)
  {
    TokenTypeIsPlain();
    NoStoreIsPlain();
    OkStatusIsPlain();
    LayoutFramed(TokenLayout(|token|, security), keepAlive, if isHead then "" else token, isHead);
  }

  lemma OkPlain(mime: string, length: nat, etag: string, encoding: Option<string>, vary: bool, cacheControl: string, security: seq<string>)
    requires OneLine(mime) && OneLine(etag) && OneLine(cacheControl) && (encoding.Some? ==> OneLine(encoding.value)) && HeaderLines(security)
    ensures PlainLayout(OkLayout(mime, length, etag, encoding, vary, cacheControl, security))
  {
    var l := OkLayout(mime, length, etag, encoding, vary, cacheControl, security);
    assert PlainField(l.before[0]);
    assert PlainField(("ETag", Quoted(etag)));
    VaryFieldsPlain(encoding, vary, cacheControl);
    PlainAppend([("ETag", Quoted(etag))], VaryFields(encoding, vary, cacheControl));
    OkStatusIsPlain();
  }

  // ---------------------------------------------------------------- the Connection flip

  function ReplaceFirst(s: string, from: string, to: string): string {
    FindSpec(s, from);
    match Find(s, from)
    case None => s
    case Some(k) => s[..k] + to + s[k + |from|..]
  }

  const KEEP_ALIVE_LINE := "Connection: keep-alive"
  const CLOSE_LINE := "Connection: close"

  /** What the serve path does to a precomputed header when the connection closes. */
  function FlipToClose(header: string): string {
    ReplaceFirst(header, KEEP_ALIVE_LINE, CLOSE_LINE)
  }

  /** A line in which "Conn" cannot start. */
  ghost predicate Harmless(line: string) {
    forall i :: 0 <= i < |line| && line[i] == 'C' ==> i + 3 < |line| && line[i + 3] != 'n'
  }

  ghost predicate HarmlessLines(lines: seq<string>) {
    forall i :: 0 <= i < |lines| ==> Harmless(lines[i])
  }

  ghost predicate StartsConn(s: string, j: nat) {
    j + 3 < |s| && s[j] == 'C' && s[j + 3] == 'n'
  }

  lemma {:induction false} NoConnInBlock(lines: seq<string>, tail: string, j: nat)
    requires HarmlessLines(lines)
    requires j < |Block(lines)|
    ensures !StartsConn(Block(lines) + tail, j)
  {
    var line, more := lines[0], Block(lines[1..]) + tail;
    assert Harmless(line);
    assert Block(lines) + tail == line + CRLF + more;
    if j >= |line| + 2 {
      NoConnInBlock(lines[1..], tail, j - (|line| + 2));
      assert (line + CRLF + more)[|line| + 2..] == more;
    }
  }

  lemma NeedleStartsConn(s: string, j: nat)
    requires At(s, j, KEEP_ALIVE_LINE)
    ensures StartsConn(s, j)
  {
    assert s[j..j + 22][0] == 'C' && s[j..j + 22][3] == 'n';
  }

  /** Flipping the precomputed header is the same as building it with `close`, whatever the later lines hold. */
  lemma FlipIsRebuild(l: Layout)
    requires HarmlessLines(UpperLines(l))
    ensures FlipToClose(Header(l, true)) == Header(l, false)
  {
    var upper, lower := Block(UpperLines(l)), CRLF + (Block(l.last) + CRLF);
    HeaderParts(l, true);
    HeaderParts(l, false);
    Assoc(upper, KEEP_ALIVE_LINE, lower);
    forall j: nat | j < |upper| ensures !At(upper + KEEP_ALIVE_LINE + lower, j, KEEP_ALIVE_LINE) {
      NoConnInBlock(UpperLines(l), KEEP_ALIVE_LINE + lower, j);
      if At(upper + KEEP_ALIVE_LINE + lower, j, KEEP_ALIVE_LINE) {
        NeedleStartsConn(upper + KEEP_ALIVE_LINE + lower, j);
      }
    }
    ReplaceAt(upper, KEEP_ALIVE_LINE, lower, CLOSE_LINE);
  }

  lemma ReplaceAt(before: string, from: string, after: string, to: string)
    requires forall j: nat | j < |before| :: !At(before + from + after, j, from)
    ensures ReplaceFirst(before + from + after, from, to) == before + to + after
  {
    var s := before + from + after;
    assert s[|before|..|before| + |from|] == from;
    FindUnique(s, from, Some(|before|));
    assert s[..|before|] == before && s[|before| + |from|..] == after;
  }

  lemma ConnectionLineText(keepAlive: bool)
    ensures ConnectionLine(keepAlive) == if keepAlive then KEEP_ALIVE_LINE else CLOSE_LINE
  {
  }

  lemma HeaderParts(l: Layout, keepAlive: bool)
    ensures Header(l, keepAlive)
            == Block(UpperLines(l)) + (if keepAlive then KEEP_ALIVE_LINE else CLOSE_LINE) + (CRLF + (Block(l.last) + CRLF))
  {
    ConnectionLineText(keepAlive);
    BlockSplit(UpperLines(l), ConnectionLine(keepAlive), l.last);
  }

  lemma BlockSplit(upper: seq<string>, line: string, last: seq<string>)
    ensures Block(upper + ([line] + last)) + CRLF == Block(upper) + line + (CRLF + (Block(last) + CRLF))
  {
    BlockAppend(upper, [line] + last);
    assert ([line] + last)[1..] == last;
    var u, b := Block(upper), Block(last);
    assert u + (line + CRLF + b) + CRLF == u + line + (CRLF + (b + CRLF));
  }

  // ---------------------------------------------------------------- headers of cached entries

  lemma FieldHarmless(name: string, value: string)
    requires Harmless(name) && 'C' !in value
    ensures HarmlessLines([Field(name, value)]) && HarmlessLines(Fields([(name, value)]))
  {
    assert 'C' !in ": ";
    assert Fields([(name, value)]) == [Field(name, value)];
  }

  lemma HarmlessAppend(a: seq<string>, b: seq<string>)
    requires HarmlessLines(a) && HarmlessLines(b)
    ensures HarmlessLines(a + b)
  {
  }

  lemma {:induction false} FieldsAppend(a: seq<(string, string)>, b: seq<(string, string)>)
    ensures Fields(a + b) == Fields(a) + Fields(b)
  {
    if a == [] {
      assert a + b == b;
    } else {
      assert (a + b)[1..] == a[1..] + b;
      FieldsAppend(a[1..], b);
    }
  }

  lemma VaryFieldsHarmless(encoding: Option<string>, vary: bool, cacheControl: string)
    requires 'C' !in cacheControl && (encoding.Some? ==> 'C' !in encoding.value)
    ensures HarmlessLines(Fields(VaryFields(encoding, vary, cacheControl)))
  {
    var a := Optional("Content-Encoding", encoding);
    var b := if vary then [("Vary", "Accept-Encoding")] else [];
    var c := [("Cache-Control", cacheControl)];
    FieldsAppend(a, b);
    FieldsAppend(a + b, c);
    assert HarmlessLines(Fields(a)) by {
      if encoding.Some? {
        FieldHarmless("Content-Encoding", encoding.value);
      }
    }
    assert HarmlessLines(Fields(b)) by {
      FieldHarmless("Vary", "Accept-Encoding");
    }
    FieldHarmless("Cache-Control", cacheControl);
    HarmlessAppend(Fields(a), Fields(b));
    HarmlessAppend(Fields(a) + Fields(b), Fields(c));
  }

  lemma HarmlessJoin(a: seq<string>, b: seq<string>, c: seq<string>, d: seq<string>)
    requires HarmlessLines(a) && HarmlessLines(b) && HarmlessLines(c) && HarmlessLines(d)
    ensures HarmlessLines(a + (b + (c + d)))
  {
    HarmlessAppend(c, d);
    HarmlessAppend(b, c + d);
    HarmlessAppend(a, b + (c + d));
  }

  lemma OkStatusHarmless()
    ensures HarmlessLines(["HTTP/1.1 200 OK"])
  {
  }

  lemma LengthHarmless(n: nat)
    ensures HarmlessLines(LengthLines(Some(n)))
  {
    FieldHarmless("Content-Length", Dec(n));
  }

  lemma TagHarmless(etag: string)
    requires 'C' !in etag
    ensures HarmlessLines(Fields([("ETag", Quoted(etag))]))
  {
    FieldHarmless("ETag", Quoted(etag));
  }

  /** Nothing above the Connection line of a 200 could be mistaken for it. */
  lemma OkHarmless(mime: string, length: nat, etag: string, encoding: Option<string>, vary: bool, cacheControl: string, security: seq<string>)
    requires 'C' !in mime && 'C' !in etag && 'C' !in cacheControl && (encoding.Some? ==> 'C' !in encoding.value)
    ensures HarmlessLines(UpperLines(OkLayout(mime, length, etag, encoding, vary, cacheControl, security)))
  {
    var l := OkLayout(mime, length, etag, encoding, vary, cacheControl, security);
    var tag, others := [("ETag", Quoted(etag))], VaryFields(encoding, vary, cacheControl);
    OkStatusHarmless();
    FieldHarmless("Content-Type", mime);
    LengthHarmless(length);
    TagHarmless(etag);
    VaryFieldsHarmless(encoding, vary, cacheControl);
    FieldsAppend(tag, others);
    HarmlessAppend(Fields(tag), Fields(others));
    HarmlessJoin([l.status], Fields(l.before), LengthLines(l.length), Fields(l.after));
  }
}
