/**
 The whole request path: head bytes to response bytes (`handle_request`), and what a client sees
 of a whole connection.
 */
module Server {
  import opened Bytes
  import opened PercentCoding
  import opened RequestHead
  import opened Responses
  import opened Printers
  import opened RedirectRules
  import opened Entries
  import opened Routing
  import Walk
  import Connection

  // ---------------------------------------------------------------- a consistent runtime

  /** An entry as the cache builder made it, with its snapshot intact. */
  ghost predicate EntryBuilt(site: Site, key: string)
    requires key in site.cache
  {
    exists data: string :: BuiltFrom(site, key, data)
  }

  ghost predicate BuiltFrom(site: Site, key: string, data: string)
    requires key in site.cache
  {
    || site.cache[key] == Mem(MakeCached(key, data, site.policy))
    || (site.cache[key] == Disk(MakeDisk(key, data, site.policy)) && HoldsBodies(site.files, key, data, site.policy))
  }

  ghost predicate SiteOk(site: Site) {
    && PolicyOk(site.policy) && TargetsOk(site.rules)
    && forall key :: key in site.cache ==> EntryBuilt(site, key)
  }

  ghost predicate VhostsOk(v: Vhosts) {
    && HeaderLines(v.security) && OneLine(v.httpPort) && OneLine(v.httpsPort)
    && forall host :: host in v.sites ==> SiteOk(v.sites[host])
  }

  // ---------------------------------------------------------------- rendering an action

  /** The alphabet and size of an ACME token name. */
  predicate TokenName(name: string) {
    0 < |name| <= 128 && forall i :: 0 <= i < |name| ==>
      'a' <= name[i] <= 'z' || 'A' <= name[i] <= 'Z' || '0' <= name[i] <= '9' || name[i] == '-' || name[i] == '_'
  }

  /** The live read of a token file, which the model does not look into. */
  type TokenReader = string -> Option<string>

  function FailReply(page: Page, security: seq<string>, keepAlive: bool, isHead: bool): Connection.Reply {
    Connection.Reply(BuildStatus(page, security).Bytes(keepAlive, isHead), keepAlive)
  }

  function TokenReply(site: Site, name: string, read: TokenReader, keepAlive: bool, isHead: bool): Connection.Reply {
    var body := if TokenName(name) then read(name) else None;
    match body
    case None => FailReply(NotFound, site.policy.security, keepAlive, isHead)
    case Some(token) =>
      Connection.Reply(Header(TokenLayout(|token|, site.policy.security), keepAlive) + if isHead then "" else token, keepAlive)
  }

  function EntryReply(site: Site, key: string, ask: Ask): Connection.Reply
    requires key in site.cache && EntryBuilt(site, key)
  {
    match site.cache[key]
    case Mem(m) =>
      BuiltIsWhole(site, key);
      var served := ServeMem(m, ask, site.policy.security);
      Connection.Reply(served.wire, served.keepAlive)
    case Disk(d) =>
      var served := ServeDisk(d, site.files, ask, site.policy.security);
      Connection.Reply(served.wire, served.keepAlive)
  }

  lemma BuiltIsWhole(site: Site, key: string)
    requires key in site.cache && EntryBuilt(site, key) && site.cache[key].Mem?
    ensures WholeHeaders(site.cache[key].m)
  {
  }

  ghost predicate ActionOk(a: Action) {
    match a
    case Fail(_, security, _) => HeaderLines(security)
    case Redirect(location, security, _) => OneLine(location) && HeaderLines(security)
    case Serve(site, key, _) => SiteOk(site) && key in site.cache
    case Token(site, _, _) => SiteOk(site)
  }

  function Render(a: Action, r: Request, read: TokenReader): Connection.Reply
    requires ActionOk(a)
  {
    var isHead := r.verb == "HEAD";
    match a
    case Fail(page, security, keepAlive) => FailReply(page, security, keepAlive, isHead)
    case Redirect(location, security, keepAlive) => Connection.Reply(Header(RedirectLayout(location, security), keepAlive), keepAlive)
    case Serve(site, key, keepAlive) => EntryReply(site, key, Ask(r.acceptEnc, r.inm, keepAlive, isHead))
    case Token(site, name, keepAlive) => TokenReply(site, name, read, keepAlive, isHead)
  }

  /** One request head to one reply. */
  function Handle(v: Vhosts, listener: Listener, read: TokenReader, head: string, wantKeepAlive: bool): Connection.Reply
    requires VhostsOk(v)
  {
    match ParseHead(head, wantKeepAlive)
    case Refused(isHead) => FailReply(BadRequest, v.security, false, isHead)
    case Accepted(r) =>
      AcceptedTarget(head, wantKeepAlive);
      DispatchOk(v, listener, r);
      Render(Dispatch(v, listener, r), r, read)
  }

  // ---------------------------------------------------------------- the pieces fit

  lemma {:induction false} Utf8IsBytes(s: string)
    requires ValidUtf8(s)
    ensures IsBytes(s)
    decreases |s|
  {
    if s != "" {
      var n := CharLength(s);
      CharIsBytes(s);
      Utf8IsBytes(s[n..]);
      assert forall i :: n <= i < |s| ==> s[i] == s[n..][i - n];
    }
  }

  lemma CharIsBytes(s: string)
    requires s != "" && CharLength(s) > 0
    ensures forall i :: 0 <= i < CharLength(s) ==> s[i] as int < 256
  {
  }

  lemma {:induction false} SplitKeepsBytes(s: string, sep: string, i: nat)
    requires sep != "" && i < |Split(s, sep)|
    ensures IsBytes(s) ==> IsBytes(Split(s, sep)[i])
    ensures OneLine(s) ==> OneLine(Split(s, sep)[i])
    decreases |s|
  {
    FindSpec(s, sep);
    if Find(s, sep).Some? {
      var k := Find(s, sep).value;
      if i > 0 {
        SplitKeepsBytes(s[k + |sep|..], sep, i - 1);
      }
    }
  }

  lemma AcceptedTarget(head: string, wantKeepAlive: bool)
    requires ParseHead(head, wantKeepAlive).Accepted?
    ensures var r := ParseHead(head, wantKeepAlive).request; IsBytes(r.target) && ControlFree(r.target) && OneLine(r.host)
    ensures !wantKeepAlive ==> !ParseHead(head, wantKeepAlive).request.keepAlive
  {
    AcceptedHostIsOneLine(head, wantKeepAlive, '\r');
    AcceptedHostIsOneLine(head, wantKeepAlive, '\n');
    Utf8IsBytes(head);
    SplitKeepsBytes(head, CRLF, 0);
    SplitKeepsBytes(Split(head, CRLF)[0], " ", 1);
  }

  lemma ControlFreeIsOneLine(s: string)
    requires ControlFree(s)
    ensures OneLine(s)
  {
  }

  lemma OriginIsOneLine(v: Vhosts, site: Site, plain: bool, host: string)
    requires OneLine(host) && OneLine(v.httpPort) && OneLine(v.httpsPort)
    ensures OneLine(Origin(v, site, plain, host)) && OneLine("https://" + Authority(host, v.httpsPort, "443"))
  {
    assert OneLine("https://") && OneLine("http://") && OneLine(":");
  }

  lemma QueryIsControlFree(target: string)
    requires ControlFree(target)
    ensures ControlFree(Query(target)) && ControlFree(Path(target))
  {
    BeforeIsPrefix(target, '?');
  }

  lemma RuleLocationIsOneLine(site: Site, path: string, origin: string, query: string)
    requires TargetsOk(site.rules) && StartsWith(path, "/") && ControlFree(path) && '?' !in path && ControlFree(query) && OneLine(origin)
    requires Resolve(site.rules, path).Some?
    ensures OneLine(RuleLocation(Resolve(site.rules, path).value, origin, query))
  {
    ResolvedShape(site.rules, path);
    ControlFreeIsOneLine(Resolve(site.rules, path).value);
    ControlFreeIsOneLine(query);
  }

  lemma EncodedIsOneLine(path: string)
    requires IsBytes(path)
    ensures OneLine(Encode(path))
  {
    EncodeIsPathSafe(path);
    PathSafeExcludes(Encode(path));
  }

  /** The four ways to redirect, each to a one-line Location. */
  lemma LocationsAreOneLine(v: Vhosts, site: Site, plain: bool, host: string, target: string, decoded: string, origin: string)
    requires VhostsOk(v) && SiteOk(site) && OneLine(host) && IsBytes(decoded) && ControlFree(target)
    requires StartsWith(Path(target), "/") && origin == Origin(v, site, plain, host)
    ensures Resolve(site.rules, Path(target)).Some? ==>
              OneLine(RuleLocation(Resolve(site.rules, Path(target)).value, origin, Query(target)))
    ensures CanonicalForm(decoded).Some? ==>
              IsBytes(CanonicalForm(decoded).value) && OneLine(origin + Encode(CanonicalForm(decoded).value) + Query(target))
    ensures OneLine("https://" + Authority(host, v.httpsPort, "443") + target)
    ensures OneLine(origin + Encode(decoded) + "/" + Query(target))
  {
    OriginIsOneLine(v, site, plain, host);
    QueryIsControlFree(target);
    BeforeIsPrefix(target, '?');
    ControlFreeIsOneLine(Query(target));
    ControlFreeIsOneLine(target);
    EncodedIsOneLine(decoded);
    assert OneLine("/");
    if Resolve(site.rules, Path(target)).Some? {
      RuleLocationIsOneLine(site, Path(target), origin, Query(target));
    }
    if CanonicalForm(decoded).Some? {
      CanonicalIsBytes(decoded);
      EncodedIsOneLine(CanonicalForm(decoded).value);
    }
  }

  /** Whatever a site answers, it answers with its own header block and its own entries. */
  lemma SiteActionOwn(v: Vhosts, site: Site, plain: bool, host: string, target: string, decoded: string, keepAlive: bool, a: Action)
    requires IsBytes(decoded) && a == SiteAction(v, site, plain, host, target, decoded, keepAlive)
    ensures match a
            case Fail(_, security, _) => security == site.policy.security
            case Redirect(_, security, _) => security == site.policy.security
            case Serve(s, key, _) => s == site && key in site.cache
            case Token(s, _, _) => s == site
  {
  }

  lemma RedirectIsOneLine(v: Vhosts, site: Site, plain: bool, host: string, target: string, decoded: string, keepAlive: bool, origin: string)
    requires IsBytes(decoded) && SiteAction(v, site, plain, host, target, decoded, keepAlive).Redirect?
    requires origin == Origin(v, site, plain, host)
    requires Resolve(site.rules, Path(target)).Some? ==>
               OneLine(RuleLocation(Resolve(site.rules, Path(target)).value, origin, Query(target)))
    requires CanonicalForm(decoded).Some? ==>
               IsBytes(CanonicalForm(decoded).value) && OneLine(origin + Encode(CanonicalForm(decoded).value) + Query(target))
    requires OneLine("https://" + Authority(host, v.httpsPort, "443") + target)
    requires OneLine(origin + Encode(decoded) + "/" + Query(target))
    ensures OneLine(SiteAction(v, site, plain, host, target, decoded, keepAlive).location)
  {
  }

  lemma SiteActionOk(v: Vhosts, site: Site, plain: bool, host: string, target: string, decoded: string, keepAlive: bool, a: Action)
    requires VhostsOk(v) && SiteOk(site) && OneLine(host) && IsBytes(decoded) && ControlFree(target)
    requires StartsWith(Path(target), "/") && a == SiteAction(v, site, plain, host, target, decoded, keepAlive)
    ensures ActionOk(a)
  {
    SiteActionOwn(v, site, plain, host, target, decoded, keepAlive, a);
    LocationsAreOneLine(v, site, plain, host, target, decoded, Origin(v, site, plain, host));
    if a.Redirect? {
      RedirectIsOneLine(v, site, plain, host, target, decoded, keepAlive, Origin(v, site, plain, host));
    }
  }

  lemma HostKeyIsOneLine(h: string)
    requires OneLine(h)
    ensures OneLine(NormalizeHost(h))
  {
    if '\r' in NormalizeHost(h) {
      NormalizeIsPart(h, '\r');
    }
    if '\n' in NormalizeHost(h) {
      NormalizeIsPart(h, '\n');
    }
  }

  /** The request passes every check that comes before the site's own routing. */
  predicate Routed(v: Vhosts, listener: Listener, r: Request)
    requires IsBytes(r.target)
  {
    var host, path := NormalizeHost(r.host), Path(r.target);
    && (listener.Tls? && listener.sni.Some? ==> listener.sni.value == host) && host in v.sites && (r.verb == "GET" || r.verb == "HEAD")
    && path != "" && path[0] == '/' && |path| < MAX_PATH_LEN && DecodePath(path).Some?
  }

  lemma RoutedDispatch(v: Vhosts, listener: Listener, r: Request, host: string, decoded: string)
    requires IsBytes(r.target) && Routed(v, listener, r) && host == NormalizeHost(r.host) && DecodePath(Path(r.target)) == Some(decoded)
    ensures IsBytes(decoded)
    ensures Dispatch(v, listener, r) == SiteAction(v, v.sites[host], listener.Plain?, host, r.target, decoded, r.keepAlive)
  {
    BeforeIsPrefix(r.target, '?');
    DecodedIsClean(Path(r.target));
  }

  /** Any other request is refused, by its site if it has one. */
  lemma StoppedFails(v: Vhosts, listener: Listener, r: Request, host: string)
    requires IsBytes(r.target) && !Routed(v, listener, r) && host == NormalizeHost(r.host)
    ensures var a := Dispatch(v, listener, r);
            && a.Fail? && (a.keepAlive ==> r.keepAlive)
            && (a.security == v.security || (host in v.sites && a.security == v.sites[host].policy.security))
  {
  }

  lemma DispatchOk(v: Vhosts, listener: Listener, r: Request)
    requires VhostsOk(v) && IsBytes(r.target) && ControlFree(r.target) && OneLine(r.host)
    ensures ActionOk(Dispatch(v, listener, r))
  {
    var host, path := NormalizeHost(r.host), Path(r.target);
    if Routed(v, listener, r) {
      var site, decoded := v.sites[host], DecodePath(path).value;
      RoutedDispatch(v, listener, r, host, decoded);
      HostKeyIsOneLine(r.host);
      assert path[..1] == "/";
      SiteActionOk(v, site, listener.Plain?, host, r.target, decoded, r.keepAlive, Dispatch(v, listener, r));
    } else {
      StoppedFails(v, listener, r, host);
    }
  }

  lemma DispatchCloses(v: Vhosts, listener: Listener, r: Request)
    requires IsBytes(r.target) && !r.keepAlive
    ensures !Dispatch(v, listener, r).keepAlive
  {
    var host := NormalizeHost(r.host);
    if Routed(v, listener, r) {
      RoutedDispatch(v, listener, r, host, DecodePath(Path(r.target)).value);
    } else {
      StoppedFails(v, listener, r, host);
    }
  }

  /** Answer one head: parse, route, and write the reply, streaming a disk body in chunks. */
  method HandleRequest(v: Vhosts, listener: Listener, read: TokenReader, head: string, wantKeepAlive: bool, sizes: nat -> nat)
    returns (reply: Connection.Reply)
    requires VhostsOk(v)
    ensures reply == Handle(v, listener, read, head, wantKeepAlive)
  {
    var parsed := ReadHead(head, wantKeepAlive);
    if parsed.Refused? {
      return FailReply(BadRequest, v.security, false, parsed.isHead);
    }
    var r := parsed.request;
    AcceptedTarget(head, wantKeepAlive);
    DispatchOk(v, listener, r);
    var action := RouteRequest(v, listener, r);
    reply := WriteReply(action, r, read, sizes);
  }

  method WriteReply(a: Action, r: Request, read: TokenReader, sizes: nat -> nat) returns (reply: Connection.Reply)
    requires ActionOk(a)
    ensures reply == Render(a, r, read)
  {
    if a.Serve? && a.site.cache[a.key].Disk? {
      var ask := Ask(r.acceptEnc, r.inm, a.keepAlive, r.verb == "HEAD");
      var served := ServeFromDisk(a.site.cache[a.key].d, a.site.files, ask, a.site.policy.security, sizes);
      return Connection.Reply(served.wire, served.keepAlive);
    }
    return Render(a, r, read);
  }

  // ---------------------------------------------------------------- every reply is self-delimiting

  /** The reply is a response that a client can delimit and whose Connection field tells the truth. */
  ghost predicate Truthful(reply: Connection.Reply, isHead: bool) {
    exists response :: Framed(reply.wire, response, isHead, reply.keepAlive)
  }

  lemma FailTruthful(page: Page, security: seq<string>, keepAlive: bool, isHead: bool)
    requires HeaderLines(security)
    ensures Truthful(FailReply(page, security, keepAlive, isHead), isHead)
  {
    StatusFramed(page, security, keepAlive, isHead);
  }

  lemma MemTruthful(site: Site, key: string, ask: Ask, data: string)
    requires SiteOk(site) && key in site.cache && site.cache[key] == Mem(MakeCached(key, data, site.policy))
    ensures EntryBuilt(site, key)
    ensures Truthful(EntryReply(site, key, ask), ask.isHead) && EntryReply(site, key, ask).keepAlive == ask.keepAlive
  {
    assert BuiltFrom(site, key, data);
    ServeMemFramed(key, data, ask, site.policy);
    assert Framed(EntryReply(site, key, ask).wire, EntryResponse(key, data, ask, site.policy), ask.isHead, ask.keepAlive);
  }

  lemma DiskServed(site: Site, key: string, ask: Ask, data: string)
    requires HoldsBodies(site.files, key, data, site.policy)
    ensures WholeHeaders(MakeCached(key, data, site.policy))
    ensures ServeDisk(MakeDisk(key, data, site.policy), site.files, ask, site.policy.security)
            == ServeMem(MakeCached(key, data, site.policy), ask, site.policy.security)
  {
    MakeSame(key, data, site.policy, site.files);
    SameEntryServesAlike(MakeCached(key, data, site.policy), MakeDisk(key, data, site.policy), site.files, ask, site.policy.security);
  }

  lemma DiskTruthful(site: Site, key: string, ask: Ask, data: string)
    requires SiteOk(site) && key in site.cache && site.cache[key] == Disk(MakeDisk(key, data, site.policy))
    requires HoldsBodies(site.files, key, data, site.policy)
    ensures EntryBuilt(site, key)
    ensures Truthful(EntryReply(site, key, ask), ask.isHead) && EntryReply(site, key, ask).keepAlive == ask.keepAlive
  {
    assert BuiltFrom(site, key, data);
    ServeMemFramed(key, data, ask, site.policy);
    DiskServed(site, key, ask, data);
    assert Framed(EntryReply(site, key, ask).wire, EntryResponse(key, data, ask, site.policy), ask.isHead, ask.keepAlive);
  }

  lemma EntryTruthful(site: Site, key: string, ask: Ask)
    requires SiteOk(site) && key in site.cache
    ensures Truthful(EntryReply(site, key, ask), ask.isHead)
    ensures EntryReply(site, key, ask).keepAlive == ask.keepAlive
  {
    assert EntryBuilt(site, key);
    var data :| BuiltFrom(site, key, data);
    if site.cache[key].Disk? {
      DiskTruthful(site, key, ask, data);
    } else {
      MemTruthful(site, key, ask, data);
    }
  }

  lemma TokenTruthful(site: Site, name: string, read: TokenReader, keepAlive: bool, isHead: bool)
    requires HeaderLines(site.policy.security)
    ensures Truthful(TokenReply(site, name, read, keepAlive, isHead), isHead)
  {
    var body := if TokenName(name) then read(name) else None;
    match body {
      case None => FailTruthful(NotFound, site.policy.security, keepAlive, isHead);
      case Some(token) => TokenFramed(token, site.policy.security, keepAlive, isHead);
    }
  }

  lemma RenderTruthful(a: Action, r: Request, read: TokenReader)
    requires ActionOk(a)
    ensures Truthful(Render(a, r, read), r.verb == "HEAD") && Render(a, r, read).keepAlive == a.keepAlive
  {
    var isHead := r.verb == "HEAD";
    match a {
      case Fail(page, security, keepAlive) => FailTruthful(page, security, keepAlive, isHead);
      case Redirect(location, security, keepAlive) => RedirectFramed(location, security, keepAlive, isHead);
      case Serve(site, key, keepAlive) => EntryTruthful(site, key, Ask(r.acceptEnc, r.inm, keepAlive, isHead));
      case Token(site, name, keepAlive) => TokenTruthful(site, name, read, keepAlive, isHead);
    }
  }

  /** What the client knows it sent: the first word of its request line. */
  predicate SentHead(head: string) {
    Split(Split(head, CRLF)[0], " ")[0] == "HEAD"
  }

  /** A head that is refused before its method is looked at. */
  ghost predicate Unreadable(head: string) {
    !ValidUtf8(head) || !Strict(head)
  }

  lemma AcceptedTruthful(v: Vhosts, listener: Listener, read: TokenReader, head: string, wantKeepAlive: bool)
    requires VhostsOk(v) && ParseHead(head, wantKeepAlive).Accepted?
    ensures !Unreadable(head) && Truthful(Handle(v, listener, read, head, wantKeepAlive), SentHead(head))
  {
    var r := ParseHead(head, wantKeepAlive).request;
    AcceptedTarget(head, wantKeepAlive);
    DispatchOk(v, listener, r);
    RenderTruthful(Dispatch(v, listener, r), r, read);
  }

  lemma RefusedIsHead(head: string, wantKeepAlive: bool)
    requires ParseHead(head, wantKeepAlive).Refused?
    ensures ParseHead(head, wantKeepAlive).isHead == (SentHead(head) && !Unreadable(head))
  {
  }

  /**
   Every reply is self-delimiting for a client that knows its own request method, with a Connection
   field that tells the truth, except the 400 to a HEAD that was refused before its method was
   read: that one carries a body.
   */
  lemma HandleTruthful(v: Vhosts, listener: Listener, read: TokenReader, head: string, wantKeepAlive: bool)
    requires VhostsOk(v)
    ensures Truthful(Handle(v, listener, read, head, wantKeepAlive), SentHead(head)) <==> !(Unreadable(head) && SentHead(head))
  {
    if ParseHead(head, wantKeepAlive).Accepted? {
      AcceptedTruthful(v, listener, read, head, wantKeepAlive);
    } else {
      RefusedIsHead(head, wantKeepAlive);
      FailTruthful(BadRequest, v.security, false, ParseHead(head, wantKeepAlive).isHead);
      BodyAfterHead(BadRequest, v.security);
    }
  }

  /** Read as the answer to a HEAD, a page with its body is not a response by itself: the body is left over. */
  lemma BodyAfterHead(page: Page, security: seq<string>)
    requires HeaderLines(security)
    ensures !Truthful(FailReply(page, security, false, false), true)
    ensures ReadAll(FailReply(page, security, false, false).wire, [true]) == None
  {
    var reply := FailReply(page, security, false, false);
    PageLeftOver(page, security);
    assert reply.wire + "" == reply.wire;
    forall response ensures !Framed(reply.wire, response, true, false) {
      if Framed(reply.wire, response, true, false) {
        ReadFramed(reply.wire, response, true, false, "");
      }
    }
    assert [true][1..] == [];
  }

  lemma PageLeftOver(page: Page, security: seq<string>)
    requires HeaderLines(security)
    ensures var read := ReadResponse(FailReply(page, security, false, false).wire, true); read.Some? && read.value.rest != ""
  {
    var layout, body := PageLayout(page, security), PageBody(page);
    StatusBytes(page, security, false, false);
    PageIsPlain(page, security);
    LinesAreHeaderLines(layout, false);
    ReadLinesOfBlock(Lines(layout, false), body);
    assert body[0] == '<';
  }

  /** The handler closes when it is told to: the last request of a connection says so. */
  lemma HandleHonours(v: Vhosts, listener: Listener, read: TokenReader, head: string)
    requires VhostsOk(v)
    ensures !Handle(v, listener, read, head, false).keepAlive
  {
    if ParseHead(head, false).Accepted? {
      var r := ParseHead(head, false).request;
      AcceptedTarget(head, false);
      DispatchOk(v, listener, r);
      DispatchCloses(v, listener, r);
      RenderTruthful(Dispatch(v, listener, r), r, read);
    }
  }

  // ---------------------------------------------------------------- a whole connection

  /** The handler of a connection, and the loop's own 431. */
  function HandlerOf(v: Vhosts, listener: Listener, read: TokenReader): Connection.Handler
    requires VhostsOk(v)
  {
    (head: string, wantKeepAlive: bool) => Handle(v, listener, read, head, wantKeepAlive)
  }

  function TooLargePage(v: Vhosts): string {
    BuildStatus(HeadersTooLarge, v.security).Bytes(false, false)
  }

  function TimeoutPage(v: Vhosts): string {
    BuildStatus(RequestTimeout, v.security).Bytes(false, false)
  }

  /** The response that the client reads for an answer. */
  ghost function ResponseTo(answer: Connection.Answer): Response
    requires Truthful(answer.reply, SentHead(answer.head))
  {
    var response :| Framed(answer.reply.wire, response, SentHead(answer.head), answer.reply.keepAlive);
    response
  }

  ghost predicate AllTruthful(answers: seq<Connection.Answer>) {
    forall i :: 0 <= i < |answers| ==> Truthful(answers[i].reply, SentHead(answers[i].head))
  }

  ghost function SentFor(answers: seq<Connection.Answer>): (sent: seq<Sent>)
    requires AllTruthful(answers)
    ensures |sent| == |answers| && AllDelimited(sent)
    ensures forall i :: 0 <= i < |answers| ==> sent[i] == Sent(answers[i].reply.wire, ResponseTo(answers[i]), SentHead(answers[i].head))
  {
    seq(|answers|, i requires 0 <= i < |answers| => Sent(answers[i].reply.wire, ResponseTo(answers[i]), SentHead(answers[i].head)))
  }

  lemma {:induction false} SentWireIsWires(answers: seq<Connection.Answer>)
    requires AllTruthful(answers)
    ensures SentWire(SentFor(answers)) == Connection.Wires(answers)
    decreases |answers|
  {
    if answers != [] {
      var rest := answers[1..];
      assert AllTruthful(rest);
      SentWireIsWires(rest);
      assert SentFor(answers)[1..] == SentFor(rest);
    }
  }

  /** What the client knows of the requests it got answers to: which of them were HEAD. */
  function MethodsSent(answers: seq<Connection.Answer>): seq<bool> {
    if answers == [] then [] else [SentHead(answers[0].head)] + MethodsSent(answers[1..])
  }

  lemma {:induction false} MethodsAreFlags(answers: seq<Connection.Answer>)
    requires AllTruthful(answers)
    ensures HeadFlags(SentFor(answers)) == MethodsSent(answers)
    decreases |answers|
  {
    if answers != [] {
      var rest := answers[1..];
      assert AllTruthful(rest);
      MethodsAreFlags(rest);
      assert SentFor(answers)[1..] == SentFor(rest);
    }
  }

  lemma {:induction false} MethodsSnoc(init: seq<Connection.Answer>, last: Connection.Answer)
    ensures MethodsSent(init + [last]) == MethodsSent(init) + [SentHead(last.head)]
  {
    if init == [] {
      assert [last][1..] == [];
    } else {
      assert (init + [last])[1..] == init[1..] + [last];
      MethodsSnoc(init[1..], last);
    }
  }

  /** An answer that no client can read: the page with a body that a HEAD gets if its method is never looked at. */
  ghost predicate IsLost(answer: Connection.Answer) {
    SentHead(answer.head) && (Unreadable(answer.head) || Connection.Judge(answer.head) == Connection.TooLarge)
  }

  /** No answered request is a HEAD that was refused before its method was read, or that is too large. */
  ghost predicate NoneIsLost(answers: seq<Connection.Answer>) {
    forall i :: 0 <= i < |answers| ==> !IsLost(answers[i])
  }

  lemma AnswerTruthful(v: Vhosts, listener: Listener, read: TokenReader, s: string, i: nat, answers: seq<Connection.Answer>)
    requires VhostsOk(v) && answers == Connection.Answers(HandlerOf(v, listener, read), TooLargePage(v), s, 0)
    requires i < |answers| && !IsLost(answers[i])
    ensures Truthful(answers[i].reply, SentHead(answers[i].head))
  {
    var h := HandlerOf(v, listener, read);
    Connection.EachAnswer(h, TooLargePage(v), s, 0, i);
    if Connection.AnswersHead(h, answers[i], 0 + i) {
      HandleTruthful(v, listener, read, answers[i].head, 0 + i + 1 < Connection.MAX_REQS_PER_CONN);
    } else {
      FailTruthful(HeadersTooLarge, v.security, false, false);
    }
  }

  lemma ReadableStream(answers: seq<Connection.Answer>)
    requires AllTruthful(answers)
    ensures ReadAll(Connection.Wires(answers), MethodsSent(answers)) == Some(SentResponses(SentFor(answers)))
  {
    SentWireIsWires(answers);
    MethodsAreFlags(answers);
    ReadAllDelimited(SentFor(answers));
  }

  lemma WiresBeforeLast(init: seq<Connection.Answer>, last: Connection.Answer)
    requires AllTruthful(init)
    ensures Connection.Wires(init + [last]) == SentWire(SentFor(init)) + last.reply.wire
  {
    SentWireIsWires(init);
    Connection.WiresSnoc(init, last);
  }

  lemma MethodsBeforeLast(init: seq<Connection.Answer>, last: Connection.Answer)
    requires AllTruthful(init)
    ensures MethodsSent(init + [last]) == HeadFlags(SentFor(init)) + [SentHead(last.head)]
  {
    MethodsAreFlags(init);
    MethodsSnoc(init, last);
  }

  lemma BehindReadable(sent: seq<Sent>, wire: string, stream: string, areHead: seq<bool>)
    requires AllDelimited(sent) && ReadAll(wire, [true]) == None
    requires stream == SentWire(sent) + wire && areHead == HeadFlags(sent) + [true]
    ensures ReadAll(stream, areHead) == None
  {
    ReadAllPrefix(sent, wire, [true]);
  }

  /** Behind readable responses, an answer that cannot be read leaves the stream unreadable. */
  lemma UnreadableLast(init: seq<Connection.Answer>, last: Connection.Answer)
    requires AllTruthful(init) && SentHead(last.head) && ReadAll(last.reply.wire, [true]) == None
    ensures ReadAll(Connection.Wires(init + [last]), MethodsSent(init + [last])) == None
  {
    var stream, areHead := Connection.Wires(init + [last]), MethodsSent(init + [last]);
    WiresBeforeLast(init, last);
    MethodsBeforeLast(init, last);
    BehindReadable(SentFor(init), last.reply.wire, stream, areHead);
  }

  lemma UnreadableCloses(v: Vhosts, listener: Listener, read: TokenReader, head: string, wantKeepAlive: bool)
    requires VhostsOk(v) && Unreadable(head)
    ensures Handle(v, listener, read, head, wantKeepAlive) == FailReply(BadRequest, v.security, false, false)
  {
  }

  /** The page that a lost answer consists of. */
  ghost function LostPage(answer: Connection.Answer): Page {
    if Connection.Judge(answer.head) == Connection.TooLarge then HeadersTooLarge else BadRequest
  }

  /** A lost answer is a closing page with a body, so it is the last one. */
  lemma LostIsLast(v: Vhosts, listener: Listener, read: TokenReader, s: string, i: nat, answers: seq<Connection.Answer>)
    requires VhostsOk(v) && answers == Connection.Answers(HandlerOf(v, listener, read), TooLargePage(v), s, 0)
    requires i < |answers| && IsLost(answers[i])
    ensures i == |answers| - 1 && answers[i].reply == FailReply(LostPage(answers[i]), v.security, false, false)
  {
    var h := HandlerOf(v, listener, read);
    Connection.EachAnswer(h, TooLargePage(v), s, 0, i);
    if Connection.AnswersHead(h, answers[i], 0 + i) {
      UnreadableCloses(v, listener, read, answers[i].head, 0 + i + 1 < Connection.MAX_REQS_PER_CONN);
    }
  }

  /** Readable answers are framed; a lost one is the last, and cannot be read. */
  ghost predicate AnswerSplits(answers: seq<Connection.Answer>, i: nat)
    requires i < |answers|
  {
    if IsLost(answers[i]) then
      i == |answers| - 1 && SentHead(answers[i].head) && ReadAll(answers[i].reply.wire, [true]) == None && !answers[i].reply.keepAlive
    else Truthful(answers[i].reply, SentHead(answers[i].head))
  }

  ghost predicate AllSplit(answers: seq<Connection.Answer>) {
    forall i :: 0 <= i < |answers| ==> AnswerSplits(answers, i)
  }

  lemma NoneLost(answers: seq<Connection.Answer>)
    requires AllSplit(answers) && NoneIsLost(answers)
    ensures AllTruthful(answers)
  {
    forall i | 0 <= i < |answers| ensures Truthful(answers[i].reply, SentHead(answers[i].head)) {
      assert AnswerSplits(answers, i);
    }
  }

  lemma OneLost(answers: seq<Connection.Answer>, i: nat)
    requires AllSplit(answers) && i < |answers| && IsLost(answers[i])
    ensures i == |answers| - 1 && AllTruthful(answers[..i]) && answers == answers[..i] + [answers[i]]
    ensures SentHead(answers[i].head) && ReadAll(answers[i].reply.wire, [true]) == None
  {
    assert AnswerSplits(answers, i);
    forall j | 0 <= j < i ensures Truthful(answers[j].reply, SentHead(answers[j].head)) {
      assert AnswerSplits(answers, j);
    }
  }

  lemma LostStream(answers: seq<Connection.Answer>, i: nat, init: seq<Connection.Answer>, last: Connection.Answer)
    requires AllSplit(answers) && i < |answers| && IsLost(answers[i]) && init == answers[..i] && last == answers[i]
    ensures ReadAll(Connection.Wires(answers), MethodsSent(answers)) == None
  {
    OneLost(answers, i);
    UnreadableLast(init, last);
  }

  lemma WholeStream(answers: seq<Connection.Answer>)
    requires AllSplit(answers) && NoneIsLost(answers)
    ensures AllTruthful(answers) && ReadAll(Connection.Wires(answers), MethodsSent(answers)) == Some(SentResponses(SentFor(answers)))
  {
    NoneLost(answers);
    ReadableStream(answers);
  }

  lemma StreamSplits(v: Vhosts, listener: Listener, read: TokenReader, s: string, answers: seq<Connection.Answer>)
    requires VhostsOk(v) && answers == Connection.Answers(HandlerOf(v, listener, read), TooLargePage(v), s, 0)
    ensures AllSplit(answers)
  {
    forall i | 0 <= i < |answers| ensures AnswerSplits(answers, i) {
      if IsLost(answers[i]) {
        LostIsLast(v, listener, read, s, i, answers);
        BodyAfterHead(LostPage(answers[i]), v.security);
      } else {
        AnswerTruthful(v, listener, read, s, i, answers);
      }
    }
  }

  /**
   The response stream is self-delimiting: a client that knows only which of its requests were
   HEAD reads back exactly one response per answer, in order, and nothing is left over; and it
   fails to exactly when the connection ends with a HEAD that could not be read or was too large.
   */
  lemma StreamIsSelfDelimiting(v: Vhosts, listener: Listener, read: TokenReader, s: string, answers: seq<Connection.Answer>)
    requires VhostsOk(v) && answers == Connection.Answers(HandlerOf(v, listener, read), TooLargePage(v), s, 0)
    ensures ReadAll(Connection.Wires(answers), MethodsSent(answers)).Some? <==> NoneIsLost(answers)
    ensures NoneIsLost(answers) ==>
              AllTruthful(answers) && ReadAll(Connection.Wires(answers), MethodsSent(answers)) == Some(SentResponses(SentFor(answers)))
  {
    StreamSplits(v, listener, read, s, answers);
    if NoneIsLost(answers) {
      WholeStream(answers);
    } else {
      var i :| 0 <= i < |answers| && IsLost(answers[i]);
      LostStream(answers, i, answers[..i], answers[i]);
    }
  }

  /** A HEAD with a stray control byte on a line of its own, as it arrives. */
  ghost predicate IsStrayHead(s: string) {
    s == "HEAD / HTTP/1.1" + CRLF + [1 as char] + TERMINATOR
  }

  lemma StrayHeadIsWhole(s: string)
    requires IsStrayHead(s)
    ensures Connection.Judge(s) == Connection.Head(|s|) && Unreadable(s)
  {
    assert |s| == 22 && s[15] == '\r' && s[16] == '\n' && s[17] == 1 as char && s[18..22] == TERMINATOR;
    assert !StrictAt(s, 17);
    forall j: nat | j < 18 ensures !At(s, j, TERMINATOR) {
      assert s[j..j + 4][0] == s[j] && s[j..j + 4][2] == s[j + 2];
    }
    FindUnique(s, TERMINATOR, Some(18));
  }

  lemma StrayLine(s: string)
    requires IsStrayHead(s)
    ensures Split(s, CRLF)[0] == "HEAD / HTTP/1.1"
  {
    var line := "HEAD / HTTP/1.1";
    assert OneLine(line);
    FindCRLF(line, [1 as char] + TERMINATOR);
    assert s == line + CRLF + ([1 as char] + TERMINATOR) && s[..15] == line;
  }

  lemma FirstWord(line: string)
    requires line == "HEAD / HTTP/1.1"
    ensures Split(line, " ")[0] == "HEAD"
  {
    forall j: nat | j < 4 ensures !At(line, j, " ") {
      assert line[j..j + 1][0] == line[j];
    }
    assert line[4..5] == " " && line[..4] == "HEAD";
    FindUnique(line, " ", Some(4));
  }

  /** Such a HEAD does arrive at the handler, and the body of its answer is left on the stream. */
  lemma StrayHeadLeavesBody(v: Vhosts, listener: Listener, read: TokenReader, s: string, answers: seq<Connection.Answer>)
    requires VhostsOk(v) && IsStrayHead(s) && answers == Connection.Answers(HandlerOf(v, listener, read), TooLargePage(v), s, 0)
    ensures Unreadable(s) && SentHead(s)
    ensures |answers| == 1 && answers[0].head == s && MethodsSent(answers) == [true]
    ensures ReadAll(Connection.Wires(answers), [true]) == None
  {
    StrayHeadIsWhole(s);
    StrayLine(s);
    FirstWord(Split(s, CRLF)[0]);
    assert s[..|s|] == s;
    StreamIsSelfDelimiting(v, listener, read, s, answers);
    assert answers[1..] == [];
  }

  /** A HEAD that fills the head limit without ending, as it arrives. */
  ghost predicate IsLongHead(s: string) {
    s == "HEAD / HTTP/1.1" + CRLF + seq(Connection.MAX_HEADER_BYTES, _ => 'a')
  }

  lemma LongHeadIsTooLarge(s: string)
    requires IsLongHead(s)
    ensures Connection.Judge(s) == Connection.TooLarge && SentHead(s[..Connection.MAX_HEADER_BYTES])
  {
    var line, limit := "HEAD / HTTP/1.1", Connection.MAX_HEADER_BYTES;
    var start, more := s[..limit], seq(limit - 17, _ => 'a');
    assert OneLine(line) && |line| == 15;
    assert start == line + CRLF + more;
    FindCRLF(line, more);
    assert start[..15] == line;
    FirstWord(line);
    LongHeadNeverEnds(s);
  }

  lemma LongHeadNeverEnds(s: string)
    requires IsLongHead(s)
    ensures Find(s, TERMINATOR) == None && |s| >= Connection.MAX_HEADER_BYTES
  {
    var line := "HEAD / HTTP/1.1";
    assert |line| == 15 && OneLine(line) && s[15] == '\r';
    forall j: nat | j + 4 <= |s| ensures !At(s, j, TERMINATOR) {
      assert s[j..j + 4][0] == s[j] && s[j..j + 4][2] == s[j + 2];
    }
    FindUnique(s, TERMINATOR, None);
  }

  /** Every HEAD that is too large gets the 431 with its body, which is left on the stream; there are such requests. */
  lemma OversizedHeadLeavesBody(v: Vhosts, listener: Listener, read: TokenReader, s: string, answers: seq<Connection.Answer>)
    requires VhostsOk(v) && answers == Connection.Answers(HandlerOf(v, listener, read), TooLargePage(v), s, 0)
    ensures IsLongHead(s) ==> Connection.Judge(s) == Connection.TooLarge && SentHead(s[..Connection.MAX_HEADER_BYTES])
    ensures Connection.Judge(s) == Connection.TooLarge && SentHead(s[..Connection.MAX_HEADER_BYTES]) ==>
              && |answers| == 1 && MethodsSent(answers) == [true] && Connection.Wires(answers) == TooLargePage(v)
              && ReadAll(TooLargePage(v), [true]) == None
  {
    if IsLongHead(s) {
      LongHeadIsTooLarge(s);
    }
    BodyAfterHead(HeadersTooLarge, v.security);
    if Connection.Judge(s) == Connection.TooLarge {
      assert answers[1..] == [];
      assert TooLargePage(v) + "" == TooLargePage(v);
    }
  }

  lemma OpenIsReadable(v: Vhosts, listener: Listener, read: TokenReader, s: string, answers: seq<Connection.Answer>)
    requires VhostsOk(v) && answers == Connection.Answers(HandlerOf(v, listener, read), TooLargePage(v), s, 0)
    requires Connection.StillOpen(answers)
    ensures AllTruthful(answers)
  {
    StreamSplits(v, listener, read, s, answers);
    forall i | 0 <= i < |answers| ensures !IsLost(answers[i]) {
      OpenSplits(answers, i);
    }
    NoneLost(answers);
  }

  lemma OpenSplits(answers: seq<Connection.Answer>, i: nat)
    requires AllSplit(answers) && i < |answers| && Connection.StillOpen(answers)
    ensures !IsLost(answers[i])
  {
    assert AnswerSplits(answers, i);
  }

  /** The 408 reads as one response, unless it answers a HEAD: then its body is left over. */
  lemma TimeoutReads(v: Vhosts, isHead: bool)
    requires VhostsOk(v)
    ensures ReadAll(TimeoutPage(v), [isHead]).Some? <==> !isHead
  {
    if isHead {
      BodyAfterHead(RequestTimeout, v.security);
    } else {
      var reply := FailReply(RequestTimeout, v.security, false, false);
      FailTruthful(RequestTimeout, v.security, false, false);
      var response :| Framed(reply.wire, response, false, false);
      ReadFramed(TimeoutPage(v), response, false, false, "");
      assert TimeoutPage(v) + "" == TimeoutPage(v) && [isHead][1..] == [];
    }
  }

  /**
   A deadline that expires while a head is awaited adds the 408 to the answers of an open connection.
   The stream then still splits into its responses, the 408 answering the unfinished request, iff
   that request is no HEAD: the 408 is sent with its body whatever was received of the request.
   */
  lemma TimedOutStream(v: Vhosts, listener: Listener, read: TokenReader, s: string, answers: seq<Connection.Answer>, isHead: bool)
    requires VhostsOk(v) && answers == Connection.Answers(HandlerOf(v, listener, read), TooLargePage(v), s, 0)
    requires Connection.StillOpen(answers)
    ensures AllTruthful(answers)
    ensures var all := ReadAll(Connection.Wires(answers) + TimeoutPage(v), MethodsSent(answers) + [isHead]);
            && (all.Some? <==> !isHead)
            && (all.Some? ==> |all.value| == |answers| + 1 && SentResponses(SentFor(answers)) <= all.value)
  {
    OpenIsReadable(v, listener, read, s, answers);
    SentWireIsWires(answers);
    MethodsAreFlags(answers);
    ReadAllPrefix(SentFor(answers), TimeoutPage(v), [isHead]);
    TimeoutReads(v, isHead);
    SentResponsesLength(SentFor(answers));
    ReadAllLength(TimeoutPage(v), [isHead]);
  }

  /** A connection never runs out its quota with the client still waiting: the last response says close. */
  lemma LastResponseCloses(v: Vhosts, listener: Listener, read: TokenReader, s: string)
    requires VhostsOk(v)
    requires |Connection.Answers(HandlerOf(v, listener, read), TooLargePage(v), s, 0)| == Connection.MAX_REQS_PER_CONN
    ensures !Connection.Answers(HandlerOf(v, listener, read), TooLargePage(v), s, 0)[Connection.MAX_REQS_PER_CONN - 1].reply.keepAlive
  {
    var h := HandlerOf(v, listener, read);
    forall head ensures !h(head, false).keepAlive {
      HandleHonours(v, listener, read, head);
    }
    Connection.QuotaCloses(h, TooLargePage(v), s);
  }

  /** The connection loop with this handler, from socket reads to the bytes the client gets. */
  method ServeConnection(v: Vhosts, listener: Listener, read: TokenReader, initial: string, arrivals: seq<string>, clock: nat -> nat, deadline: nat)
    returns (out: string, ghost cut: nat, ghost late: Connection.Lateness)
    requires VhostsOk(v) && Connection.ReadSizes(arrivals)
    ensures cut <= |initial + Concat(arrivals)|
    ensures out == Connection.Wires(Connection.Answers(HandlerOf(v, listener, read), TooLargePage(v), (initial + Concat(arrivals))[..cut], 0))
                   + if late.AwaitingHead? then TimeoutPage(v) else ""
    ensures late == Connection.OnTime ==>
              out == Connection.Wires(Connection.Answers(HandlerOf(v, listener, read), TooLargePage(v), initial + Concat(arrivals), 0))
    ensures Connection.KeepsTime(HandlerOf(v, listener, read), TooLargePage(v), Connection.Input(initial, arrivals, clock, deadline), cut, late)
  {
    ghost var peak;
    out, cut, late, peak := Connection.ServeOver(
      HandlerOf(v, listener, read), Connection.LoopErrors(TooLargePage(v), TimeoutPage(v)), initial, arrivals, clock, deadline);
  }

  // ---------------------------------------------------------------- storage is invisible to clients

  /** One site in two storages: the same settings, and the same documents behind the same keys. */
  ghost predicate SiteTwins(a: Site, b: Site) {
    && a.(cache := b.cache, files := b.files) == b && a.cache.Keys == b.cache.Keys
    && forall key :: key in a.cache && key in b.cache ==> EntryTwins(a, b, key)
  }

  ghost predicate EntryTwins(a: Site, b: Site, key: string)
    requires key in a.cache && key in b.cache
  {
    exists data: string :: BuiltFrom(a, key, data) && BuiltFrom(b, key, data)
  }

  ghost predicate VhostTwins(v: Vhosts, w: Vhosts) {
    && v.(sites := w.sites) == w && v.sites.Keys == w.sites.Keys
    && forall host :: host in v.sites && host in w.sites ==> SiteTwins(v.sites[host], w.sites[host])
  }

  ghost predicate ActionTwins(a: Action, b: Action) {
    if a.Serve? then b.Serve? && b.key == a.key && b.keepAlive == a.keepAlive && SiteTwins(a.site, b.site)
    else if a.Token? then b.Token? && b.name == a.name && b.keepAlive == a.keepAlive && SiteTwins(a.site, b.site)
    else a == b
  }

  /** What an entry serves depends on the document it was built from only. */
  lemma ReplyOfDocument(site: Site, key: string, ask: Ask, data: string)
    requires key in site.cache && BuiltFrom(site, key, data)
    ensures EntryBuilt(site, key) && WholeHeaders(MakeCached(key, data, site.policy))
    ensures var served := ServeMem(MakeCached(key, data, site.policy), ask, site.policy.security);
            EntryReply(site, key, ask) == Connection.Reply(served.wire, served.keepAlive)
  {
    if site.cache[key].Disk? {
      DiskServed(site, key, ask, data);
    } else {
      BuiltIsWhole(site, key);
    }
  }

  lemma EntryTwinsReply(a: Site, b: Site, key: string, ask: Ask)
    requires SiteTwins(a, b) && key in a.cache
    ensures key in b.cache && EntryBuilt(a, key) && EntryBuilt(b, key) && EntryReply(a, key, ask) == EntryReply(b, key, ask)
  {
    assert EntryTwins(a, b, key);
    var data: string :| BuiltFrom(a, key, data) && BuiltFrom(b, key, data);
    ReplyOfDocument(a, key, ask, data);
    ReplyOfDocument(b, key, ask, data);
  }

  lemma ResolveByKeys(a: Walk.Cache, b: Walk.Cache, path: string)
    requires a.Keys == b.Keys
    ensures ResolvePath(a, path) == ResolvePath(b, path)
  {
    assert forall key :: key in a <==> key in b;
  }

  /** What a site's routing depends on besides its settings: which keys the path resolves to. */
  lemma SiteActionTwins(v: Vhosts, w: Vhosts, a: Site, b: Site, plain: bool, host: string, target: string, decoded: string, keepAlive: bool,
                        x: Action, y: Action)
    requires v.httpPort == w.httpPort && v.httpsPort == w.httpsPort && IsBytes(decoded)
    requires a.hasRoot == b.hasRoot && a.forceSsl == b.forceSsl && a.canonicalUrls == b.canonicalUrls
    requires a.rules == b.rules && a.policy == b.policy && ResolvePath(a.cache, decoded) == ResolvePath(b.cache, decoded)
    requires x == SiteAction(v, a, plain, host, target, decoded, keepAlive) && y == SiteAction(w, b, plain, host, target, decoded, keepAlive)
    ensures if x.Serve? then x.site == a && y == Serve(b, x.key, x.keepAlive)
            else if x.Token? then x.site == a && y == Token(b, x.name, x.keepAlive)
            else x == y
  {
    assert Origin(v, a, plain, host) == Origin(w, b, plain, host);
  }

  lemma StoppedDispatch(v: Vhosts, w: Vhosts, listener: Listener, r: Request, host: string)
    requires IsBytes(r.target) && !Routed(v, listener, r) && host == NormalizeHost(r.host)
    requires v.security == w.security && (host in v.sites <==> host in w.sites)
    requires host in v.sites && host in w.sites ==> v.sites[host].policy == w.sites[host].policy
    ensures Dispatch(v, listener, r).Fail? && Dispatch(v, listener, r) == Dispatch(w, listener, r)
  {
  }

  lemma DispatchTwins(v: Vhosts, w: Vhosts, listener: Listener, r: Request)
    requires VhostTwins(v, w) && IsBytes(r.target)
    ensures ActionTwins(Dispatch(v, listener, r), Dispatch(w, listener, r))
  {
    var host := NormalizeHost(r.host);
    assert host in v.sites <==> host in w.sites;
    if Routed(v, listener, r) {
      var a, b, decoded := v.sites[host], w.sites[host], DecodePath(Path(r.target)).value;
      RoutedDispatch(v, listener, r, host, decoded);
      RoutedDispatch(w, listener, r, host, decoded);
      ResolveByKeys(a.cache, b.cache, decoded);
      SiteActionTwins(v, w, a, b, listener.Plain?, host, r.target, decoded, r.keepAlive, Dispatch(v, listener, r), Dispatch(w, listener, r));
    } else {
      StoppedDispatch(v, w, listener, r, host);
    }
  }

  lemma RenderTwins(a: Action, b: Action, r: Request, read: TokenReader)
    requires ActionOk(a) && ActionOk(b) && ActionTwins(a, b)
    ensures Render(a, r, read) == Render(b, r, read)
  {
    if a.Serve? {
      EntryTwinsReply(a.site, b.site, a.key, Ask(r.acceptEnc, r.inm, a.keepAlive, r.verb == "HEAD"));
    }
  }

  /** One request gets one reply, whichever storage its documents are in. */
  lemma HandleTwins(v: Vhosts, w: Vhosts, listener: Listener, read: TokenReader, head: string, wantKeepAlive: bool)
    requires VhostsOk(v) && VhostsOk(w) && VhostTwins(v, w)
    ensures Handle(v, listener, read, head, wantKeepAlive) == Handle(w, listener, read, head, wantKeepAlive)
  {
    if ParseHead(head, wantKeepAlive).Accepted? {
      var r := ParseHead(head, wantKeepAlive).request;
      AcceptedTarget(head, wantKeepAlive);
      DispatchOk(v, listener, r);
      DispatchOk(w, listener, r);
      DispatchTwins(v, w, listener, r);
      RenderTwins(Dispatch(v, listener, r), Dispatch(w, listener, r), r, read);
    }
  }

  /** So a connection gets the same answers. */
  lemma ConnectionTwins(v: Vhosts, w: Vhosts, listener: Listener, read: TokenReader, s: string)
    requires VhostsOk(v) && VhostsOk(w) && VhostTwins(v, w)
    ensures Connection.Answers(HandlerOf(v, listener, read), TooLargePage(v), s, 0)
            == Connection.Answers(HandlerOf(w, listener, read), TooLargePage(w), s, 0)
  {
    var h, k := HandlerOf(v, listener, read), HandlerOf(w, listener, read);
    forall head, wantKeepAlive ensures h(head, wantKeepAlive) == k(head, wantKeepAlive) {
      HandleTwins(v, w, listener, read, head, wantKeepAlive);
    }
    Connection.SameHandler(h, k, TooLargePage(v), s, 0);
  }
}
