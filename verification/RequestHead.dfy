/**
 Parsing one request head: the strict framing check, the request line and the single pass over
 the header fields that `handle_request` makes before it looks at any site.
 */
module RequestHead {
  import opened Bytes
  import opened PercentCoding

  // ---------------------------------------------------------------- strict framing

  /** Only CRLF line breaks, no DEL and no control byte but HTAB. */
  ghost predicate Strict(head: string) {
    forall i :: 0 <= i < |head| ==> StrictAt(head, i)
  }

  predicate StrictAt(head: string, i: nat)
    requires i < |head|
  {
    && (head[i] == '\r' ==> i + 1 < |head| && head[i + 1] == '\n')
    && (head[i] == '\n' ==> i > 0 && head[i - 1] == '\r')
    && (IsControl(head[i]) ==> head[i] == '\r' || head[i] == '\n' || head[i] == '\t')
  }

  method WellFormedHead(head: string) returns (ok: bool)
    ensures ok <==> Strict(head)
  {
    var i := 0;
    while i < |head|
      invariant i <= |head|
      invariant forall j :: 0 <= j < i ==> StrictAt(head, j)
      invariant i > 0 ==> head[i - 1] != '\r'
    {
      if head[i] == '\r' {
        if i + 1 >= |head| || head[i + 1] != '\n' {
          assert !StrictAt(head, i);
          return false;
        }
        assert StrictAt(head, i) && StrictAt(head, i + 1);
        i := i + 2;
      } else {
        if head[i] == '\n' || head[i] as int == 0x7f || (head[i] as int < 0x20 && head[i] != '\t') {
          assert !StrictAt(head, i);
          return false;
        }
        i := i + 1;
      }
    }
    return true;
  }

  // ---------------------------------------------------------------- two ways to split lines

  function Split(s: string, sep: string): (pieces: seq<string>)
    requires sep != ""
    ensures pieces != []
    decreases |s|
  {
    FindSpec(s, sep);
    match Find(s, sep)
    case None => [s]
    case Some(k) => [s[..k]] + Split(s[k + |sep|..], sep)
  }

  function DropCR(line: string): string {
    if line != "" && line[|line| - 1] == '\r' then line[..|line| - 1] else line
  }

  /** The lenient reader: a line ends at LF, and one CR before it is dropped (section 2.2 of RFC 9112). */
  function LenientLines(s: string): seq<string>
    decreases |s|
  {
    FindSpec(s, "\n");
    match Find(s, "\n")
    case None => [DropCR(s)]
    case Some(k) => [DropCR(s[..k])] + LenientLines(s[k + 1..])
  }

  lemma FirstBreak(s: string)
    requires Strict(s)
    ensures match Find(s, CRLF)
            case None => Find(s, "\n") == None && '\r' !in s
            case Some(k) => Find(s, "\n") == Some(k + 1) && k < |s| && s[k] == '\r'
  {
    FindSpec(s, CRLF);
    forall j: nat | j < |s| && s[j] == '\n' ensures j > 0 && At(s, j - 1, CRLF) {
      assert StrictAt(s, j);
      assert s[j - 1..j + 1] == CRLF;
    }
    forall j: nat | At(s, j, "\n") ensures s[j] == '\n' {
      assert s[j..j + 1][0] == '\n';
    }
    match Find(s, CRLF) {
      case None =>
        FindUnique(s, "\n", None);
        forall j: nat | j < |s| ensures s[j] != '\r' {
          assert StrictAt(s, j);
          assert s[j] == '\r' ==> At(s, j, CRLF);
        }
      case Some(k) =>
        assert s[k..k + 2][0] == '\r' && s[k..k + 2][1] == '\n';
        assert s[k + 1..k + 2] == "\n";
        FindUnique(s, "\n", Some(k + 1));
    }
  }

  lemma StrictTail(s: string, from: nat)
    requires Strict(s) && 0 < from <= |s| && s[from - 1] == '\n'
    ensures Strict(s[from..])
  {
    var t := s[from..];
    forall i | 0 <= i < |t| ensures StrictAt(t, i) {
      assert StrictAt(s, from + i);
    }
  }

  /** On a strictly framed head, splitting on CRLF and the lenient reader see the same lines. */
  lemma {:induction false} StrictLinesAreLenientLines(s: string)
    requires Strict(s)
    ensures Split(s, CRLF) == LenientLines(s)
    decreases |s|
  {
    FirstBreak(s);
    FindSpec(s, CRLF);
    match Find(s, CRLF) {
      case None =>
      case Some(k) =>
        assert s[k..k + 2][1] == '\n';
        StrictTail(s, k + 2);
        StrictLinesAreLenientLines(s[k + 2..]);
        assert s[..k + 1][..k] == s[..k];
    }
  }

  /** Half a line break only occurs in a whole one. */
  lemma HalfBreak(s: string, j: nat)
    requires Strict(s) && j < |s| && (s[j] == '\r' || s[j] == '\n')
    ensures At(s, j, CRLF) || (j > 0 && At(s, j - 1, CRLF))
    ensures s[j] == '\r' ==> At(s, j, CRLF)
  {
    assert StrictAt(s, j);
    if s[j] == '\r' {
      assert s[j..j + 2] == CRLF;
    } else {
      assert s[j - 1..j + 1] == CRLF;
    }
  }

  lemma BreakFreePiece(s: string, k: nat)
    requires Strict(s) && k <= |s| && forall j: nat :: j < k ==> !At(s, j, CRLF)
    ensures '\r' !in s[..k] && '\n' !in s[..k]
  {
    forall j | 0 <= j < k ensures s[j] != '\r' && s[j] != '\n' {
      if s[j] == '\r' || s[j] == '\n' {
        HalfBreak(s, j);
      }
    }
  }

  /** No line of a strictly framed head holds half a line break. */
  lemma {:induction false} StrictLinesAreWhole(s: string, i: nat)
    requires Strict(s) && i < |Split(s, CRLF)|
    ensures '\r' !in Split(s, CRLF)[i] && '\n' !in Split(s, CRLF)[i]
    decreases |s|
  {
    FindSpec(s, CRLF);
    match Find(s, CRLF) {
      case None =>
        BreakFreePiece(s, |s|);
        assert s[..|s|] == s;
      case Some(k) =>
        assert s[k..k + 2][0] == '\r' && s[k..k + 2][1] == '\n';
        BreakFreePiece(s, k);
        StrictTail(s, k + 2);
        if i > 0 {
          StrictLinesAreWhole(s[k + 2..], i - 1);
        }
    }
  }

  // ---------------------------------------------------------------- the header pass

  datatype Headers = Headers(keepAlive: bool, acceptEnc: string, host: string, inm: string, hostSeen: bool, hasBody: bool)

  /** The explicit Connection tokens, the last one winning over what was known before. */
  function ConnectionTokens(tokens: seq<string>, keepAlive: bool): bool {
    if tokens == [] then keepAlive
    else
      var token := Trim(tokens[0]);
      ConnectionTokens(tokens[1..],
                       if EqIgnoreCase(token, "close") then false
                       else if EqIgnoreCase(token, "keep-alive") then true
                       else keepAlive)
  }

  /** The token says what becomes of the connection. */
  predicate IsExplicit(token: string) {
    EqIgnoreCase(Trim(token), "close") || EqIgnoreCase(Trim(token), "keep-alive")
  }

  /** The last explicit token decides, whatever stands before it; without one nothing changes. */
  lemma {:induction false} LastTokenWins(tokens: seq<string>, keepAlive: bool, i: nat)
    requires i <= |tokens| && (i < |tokens| ==> IsExplicit(tokens[i]))
    requires forall j :: i < j < |tokens| ==> !IsExplicit(tokens[j])
    requires i == |tokens| ==> forall j :: 0 <= j < |tokens| ==> !IsExplicit(tokens[j])
    ensures ConnectionTokens(tokens, keepAlive)
            == if i < |tokens| then EqIgnoreCase(Trim(tokens[i]), "keep-alive") else keepAlive
    decreases |tokens|
  {
    if tokens != [] {
      var rest := tokens[1..];
      assert forall j :: 0 <= j < |rest| ==> rest[j] == tokens[j + 1];
      var after := if EqIgnoreCase(Trim(tokens[0]), "close") then false
                   else if EqIgnoreCase(Trim(tokens[0]), "keep-alive") then true
                   else keepAlive;
      CloseOrKeep(Trim(tokens[0]));
      LastTokenWins(rest, after, if i == 0 then |rest| else i - 1);
    }
  }

  lemma CloseOrKeep(token: string)
    ensures !(EqIgnoreCase(token, "close") && EqIgnoreCase(token, "keep-alive"))
  {
    assert |"close"| != |"keep-alive"|;
  }

  /** A field line as (name, value), or nothing if it is folded or malformed. */
  function FieldOf(line: string): Option<(string, string)> {
    FindSpec(line, ":");
    if line != "" && (line[0] == ' ' || line[0] == '\t') then None
    else match Find(line, ":")
      case None => None
      case Some(k) =>
        var name := line[..k];
        if name == "" || ' ' in name || '\t' in name then None
        else Some((name, Trim(line[k + 1..])))
  }

  /** One field line; `None` refuses the request. */
  function HeaderStep(h: Headers, line: string): Option<Headers> {
    match FieldOf(line)
    case None => None
    case Some((name, value)) =>
      if EqIgnoreCase(name, "host") then
        if h.hostSeen then None else Some(h.(hostSeen := true, host := value))
      else if EqIgnoreCase(name, "content-length") then
        Some(h.(hasBody := h.hasBody || value != "0"))
      else if EqIgnoreCase(name, "transfer-encoding") then
        Some(h.(hasBody := true))
      else if EqIgnoreCase(name, "connection") then
        Some(h.(keepAlive := ConnectionTokens(Split(value, ","), h.keepAlive)))
      else if EqIgnoreCase(name, "if-none-match") then
        Some(h.(inm := value))
      else if EqIgnoreCase(name, "accept-encoding") then
        Some(h.(acceptEnc := value))
      else Some(h)
  }

  function HeaderPass(lines: seq<string>, h: Headers): Option<Headers> {
    if lines == [] || lines[0] == "" then Some(h)
    else match HeaderStep(h, lines[0])
      case None => None
      case Some(h') => HeaderPass(lines[1..], h')
  }

  /** The loop of the server over the lines that follow the request line. */
  method ReadHeaders(lines: seq<string>, http11: bool) returns (r: Option<Headers>)
    ensures r == HeaderPass(lines, Headers(http11, "", "", "", false, false))
  {
    ghost var start := Headers(http11, "", "", "", false, false);
    var keepAlive, acceptEnc, host, inm, hostSeen, hasBody := http11, "", "", "", false, false;
    var i := 0;
    assert lines[0..] == lines;
    while i < |lines| && lines[i] != ""
      invariant i <= |lines|
      invariant HeaderPass(lines, start) == HeaderPass(lines[i..], Headers(keepAlive, acceptEnc, host, inm, hostSeen, hasBody))
    {
      assert lines[i..][0] == lines[i] && lines[i..][1..] == lines[i + 1..];
      match FieldOf(lines[i]) {
        case None =>
          return None;
        case Some((name, value)) =>
          if EqIgnoreCase(name, "host") {
            if hostSeen {
              return None;
            }
            hostSeen, host := true, value;
          } else if EqIgnoreCase(name, "content-length") {
            if value != "0" {
              hasBody := true;
            }
          } else if EqIgnoreCase(name, "transfer-encoding") {
            hasBody := true;
          } else if EqIgnoreCase(name, "connection") {
            keepAlive := ReadConnection(Split(value, ","), keepAlive);
          } else if EqIgnoreCase(name, "if-none-match") {
            inm := value;
          } else if EqIgnoreCase(name, "accept-encoding") {
            acceptEnc := value;
          }
      }
      i := i + 1;
    }
    return Some(Headers(keepAlive, acceptEnc, host, inm, hostSeen, hasBody));
  }

  method ReadConnection(tokens: seq<string>, before: bool) returns (keepAlive: bool)
    ensures keepAlive == ConnectionTokens(tokens, before)
  {
    keepAlive := before;
    assert tokens[0..] == tokens;
    for i := 0 to |tokens|
      invariant ConnectionTokens(tokens, before) == ConnectionTokens(tokens[i..], keepAlive)
    {
      assert tokens[i..][0] == tokens[i] && tokens[i..][1..] == tokens[i + 1..];
      var token := Trim(tokens[i]);
      if EqIgnoreCase(token, "close") {
        keepAlive := false;
      } else if EqIgnoreCase(token, "keep-alive") {
        keepAlive := true;
      }
    }
  }

  // ---------------------------------------------------------------- the whole head

  datatype Request = Request(verb: string, target: string, keepAlive: bool, host: string, acceptEnc: string, inm: string)

  /** `Refused` is answered 400 and closes; `isHead` says whether that answer drops its body. */
  datatype Parsed = Refused(isHead: bool) | Accepted(request: Request)

  function ParseHead(head: string, wantKeepAlive: bool): Parsed {
    if !ValidUtf8(head) || exists i | 0 <= i < |head| :: !StrictAt(head, i) then Refused(false)
    else
      var lines := Split(head, CRLF);
      var parts := Split(lines[0], " ");
      var isHead := parts[0] == "HEAD";
      if |parts| != 3 || parts[0] == "" || parts[1] == "" || parts[2] == "" then Refused(isHead)
      else if parts[2] != "HTTP/1.1" && parts[2] != "HTTP/1.0" then Refused(isHead)
      else if !ControlFree(parts[1]) then Refused(isHead)
      else match HeaderPass(lines[1..], Headers(parts[2] == "HTTP/1.1", "", "", "", false, false))
        case None => Refused(isHead)
        case Some(h) =>
          if h.hasBody then Refused(isHead)
          else Accepted(Request(parts[0], parts[1], wantKeepAlive && h.keepAlive, h.host, h.acceptEnc, h.inm))
  }

  /** Parse a head with the loops above. */
  method ReadHead(head: string, wantKeepAlive: bool) returns (r: Parsed)
    ensures r == ParseHead(head, wantKeepAlive)
  {
    if !ValidUtf8(head) {
      return Refused(false);
    }
    var strict := WellFormedHead(head);
    if !strict {
      return Refused(false);
    }
    var lines := Split(head, CRLF);
    var parts := Split(lines[0], " ");
    var isHead := parts[0] == "HEAD";
    if |parts| != 3 || parts[0] == "" || parts[1] == "" || parts[2] == "" {
      return Refused(isHead);
    }
    if parts[2] != "HTTP/1.1" && parts[2] != "HTTP/1.0" {
      return Refused(isHead);
    }
    if !ControlFree(parts[1]) {
      return Refused(isHead);
    }
    var headers := ReadHeaders(lines[1..], parts[2] == "HTTP/1.1");
    if headers.None? || headers.value.hasBody {
      return Refused(isHead);
    }
    var h := headers.value;
    return Accepted(Request(parts[0], parts[1], wantKeepAlive && h.keepAlive, h.host, h.acceptEnc, h.inm));
  }

  lemma {:induction false} HostIsFromALine(lines: seq<string>, h: Headers, c: char)
    requires HeaderPass(lines, h).Some? && c in HeaderPass(lines, h).value.host && c !in h.host
    ensures exists i :: 0 <= i < |lines| && c in lines[i]
    decreases |lines|
  {
    if lines != [] && lines[0] != "" {
      var h' := HeaderStep(h, lines[0]).value;
      if c in h'.host {
        FieldIsFromLine(lines[0], c);
      } else {
        HostIsFromALine(lines[1..], h', c);
        var i :| 0 <= i < |lines[1..]| && c in lines[1..][i];
        assert lines[i + 1] == lines[1..][i];
      }
    }
  }

  lemma FieldIsFromLine(line: string, c: char)
    requires FieldOf(line).Some? && c in FieldOf(line).value.1
    ensures c in line
  {
    FindSpec(line, ":");
    TrimIsPart(line[Find(line, ":").value + 1..], c);
  }

  /** The Host value of an accepted head is one line. */
  lemma AcceptedHostIsOneLine(head: string, wantKeepAlive: bool, c: char)
    requires ParseHead(head, wantKeepAlive).Accepted? && (c == '\r' || c == '\n')
    ensures c !in ParseHead(head, wantKeepAlive).request.host
  {
    if c in ParseHead(head, wantKeepAlive).request.host {
      var lines := Split(head, CRLF);
      var parts := Split(lines[0], " ");
      HostIsFromALine(lines[1..], Headers(parts[2] == "HTTP/1.1", "", "", "", false, false), c);
      var i :| 0 <= i < |lines[1..]| && c in lines[1..][i];
      StrictLinesAreWhole(head, i + 1);
    }
  }

  // ---------------------------------------------------------------- what an accepted head cannot hide

  /** The field lines of a head, under a given reading of its lines. */
  function FieldLines(lines: seq<string>): seq<string> {
    if lines == [] || lines[0] == "" then [] else [lines[0]] + FieldLines(lines[1..])
  }

  predicate IsNamed(line: string, name: string) {
    FieldOf(line).Some? && EqIgnoreCase(FieldOf(line).value.0, name)
  }

  predicate DeclaresBody(line: string) {
    IsNamed(line, "transfer-encoding") || (IsNamed(line, "content-length") && FieldOf(line).value.1 != "0")
  }

  function Hosts(lines: seq<string>): nat {
    if lines == [] then 0 else (if IsNamed(lines[0], "host") then 1 else 0) + Hosts(lines[1..])
  }

  lemma NamesDiffer(name: string)
    ensures EqIgnoreCase(name, "host") ==> !EqIgnoreCase(name, "content-length") && !EqIgnoreCase(name, "transfer-encoding")
    ensures EqIgnoreCase(name, "content-length") ==> !EqIgnoreCase(name, "transfer-encoding")
  {
  }

  lemma {:induction false} AcceptedFields(lines: seq<string>, h: Headers)
    requires HeaderPass(lines, h).Some?
    ensures forall i :: 0 <= i < |FieldLines(lines)| ==> FieldOf(FieldLines(lines)[i]).Some?
    ensures Hosts(FieldLines(lines)) + (if h.hostSeen then 1 else 0) <= 1
    ensures h.hasBody ==> HeaderPass(lines, h).value.hasBody
    ensures !HeaderPass(lines, h).value.hasBody ==> forall i :: 0 <= i < |FieldLines(lines)| ==> !DeclaresBody(FieldLines(lines)[i])
  {
    if lines != [] && lines[0] != "" {
      NamesDiffer(FieldOf(lines[0]).value.0);
      AcceptedFields(lines[1..], HeaderStep(h, lines[0]).value);
    }
  }

  /**
   A head that is not refused has no folded or malformed field line, at most one Host and no
   declared body, even for a reader that accepts a bare LF as a line break.
   */
  lemma NothingHidden(head: string, wantKeepAlive: bool)
    requires ParseHead(head, wantKeepAlive).Accepted?
    ensures LenientLines(head) != []
    ensures var fields := FieldLines(LenientLines(head)[1..]);
            && Hosts(fields) <= 1
            && forall i :: 0 <= i < |fields| ==> FieldOf(fields[i]).Some? && !DeclaresBody(fields[i])
  {
    assert Strict(head);
    StrictLinesAreLenientLines(head);
    var lines := Split(head, CRLF);
    var parts := Split(lines[0], " ");
    AcceptedFields(lines[1..], Headers(parts[2] == "HTTP/1.1", "", "", "", false, false));
  }

  /**
   Field values are trimmed of all Unicode white space, not only of the blanks and tabs that the
   grammar allows around them: a length of zero followed by a no-break space declares no body.
   */
  lemma WideSpaceIsTrimmed(line: string)
    requires line == "Content-Length: 0" + [0xC2 as char, 0xA0 as char]
    ensures FieldOf(line) == Some(("Content-Length", "0")) && !DeclaresBody(line)
  {
    var name, value := "Content-Length", [' ', '0', 0xC2 as char, 0xA0 as char];
    assert line == name + ":" + value;
    assert line[14..15] == ":" && line[..14] == name && line[15..] == value;
    forall j: nat | j < 14 ensures !At(line, j, ":") {
      assert line[j..j + 1][0] == line[j];
    }
    FindUnique(line, ":", Some(14));
    ZeroRemains(value);
    NamesDiffer(name);
  }

  lemma ZeroRemains(value: string)
    requires value == [' ', '0', 0xC2 as char, 0xA0 as char]
    ensures Trim(value) == "0"
  {
    var t := value[1..];
    assert t == ['0', 0xC2 as char, 0xA0 as char];
    VisibleEnds(t);
    assert TrimStart(t) == t && LeadingSpace(value) == 1;
    OneLeft(t);
  }

  lemma OneLeft(t: string)
    requires t == ['0', 0xC2 as char, 0xA0 as char]
    ensures TrimEnd(t) == "0"
  {
    assert t[|t| - 2..] == [0xC2 as char, 0xA0 as char] && IsWideSpace(t[|t| - 2..]);
    assert TrailingSpace(t) == 2 && t[..|t| - 2] == "0";
    VisibleEnds("0");
    assert TrimEnd(t) == TrimEnd(t[..|t| - 2]);
  }
}
