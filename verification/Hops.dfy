/**
 Following the redirects of the server back through its own handler: where they land, and how
 many there can be.
 */
module Hops {
  import opened Bytes
  import opened PercentCoding
  import opened RequestHead
  import opened RedirectRules
  import opened Printers
  import opened Routing
  import Walk

  // ---------------------------------------------------------------- following a Location

  predicate EndsAuthority(c: char) {
    c == '/' || c == '?' || c == '#'
  }

  function AuthorityPart(s: string): (r: string)
    ensures |r| <= |s|
  {
    if s == "" || EndsAuthority(s[0]) then "" else [s[0]] + AuthorityPart(s[1..])
  }

  /** The next request of a client that follows a Location; a fragment is never sent. */
  datatype Hop = Hop(plain: bool, authority: string, target: string)

  function Follow(location: string): Option<Hop> {
    if StartsWith(location, "https://") then Some(FollowIn(false, location[8..]))
    else if StartsWith(location, "http://") then Some(FollowIn(true, location[7..]))
    else None
  }

  function FollowIn(plain: bool, rest: string): Hop {
    var authority := AuthorityPart(rest);
    var target := Before(rest[|authority|..], '#');
    Hop(plain, authority, if target == "" || target[0] != '/' then "/" + target else target)
  }

  /** Text without the bytes that end an authority. */
  ghost predicate Undelimited(s: string) {
    forall i :: 0 <= i < |s| ==> !EndsAuthority(s[i])
  }

  /** A host name that comes back from a Location: trimmed, lower case, without brackets or a port. */
  ghost predicate PlainHost(host: string) {
    && host != "" && Undelimited(host) && Trim(host) == host && host[0] != '[' && ':' !in host
    && forall i :: 0 <= i < |host| ==> Lower(host[i]) == host[i]
  }

  lemma {:induction false} BeforeSplit(a: string, b: string, c: char)
    requires c !in a
    ensures Before(a + b, c) == a + Before(b, c)
  {
    if a == "" {
      assert a + b == b;
    } else {
      assert (a + b)[1..] == a[1..] + b;
      BeforeSplit(a[1..], b, c);
    }
  }

  lemma {:induction false} AuthorityThenPath(a: string, t: string)
    requires Undelimited(a) && t != "" && t[0] == '/'
    ensures AuthorityPart(a + t) == a
  {
    if a == "" {
      assert a + t == t;
    } else {
      assert (a + t)[1..] == a[1..] + t;
      AuthorityThenPath(a[1..], t);
    }
  }

  lemma {:induction false} LowerAllKeeps(s: string)
    requires forall i :: 0 <= i < |s| ==> Lower(s[i]) == s[i]
    ensures LowerAll(s) == s
  {
    if s != "" {
      LowerAllKeeps(s[1..]);
    }
  }

  lemma {:induction false} TrimEndAfter(a: string, b: string)
    requires a != "" && IsVisible(a[|a| - 1])
    ensures a <= TrimEnd(a + b)
    decreases |b|
  {
    TailAfter(a, b);
    var n := TrailingSpace(a + b);
    if n > 0 {
      assert (a + b)[..|a + b| - n] == a + b[..|b| - n];
      TrimEndAfter(a, b[..|b| - n]);
    }
  }

  /** White space at the end never reaches back over a visible character. */
  lemma TailAfter(a: string, b: string)
    requires a != "" && IsVisible(a[|a| - 1])
    ensures TrailingSpace(a + b) <= |b|
  {
    TrailingIsInvisible(a + b, |a| - 1);
    assert (a + b)[|a| - 1] == a[|a| - 1];
  }

  lemma {:induction false} TrimStartShorter(s: string)
    ensures if LeadingSpace(s) == 0 then TrimStart(s) == s else |TrimStart(s)| < |s|
    decreases |s|
  {
    if LeadingSpace(s) > 0 {
      TrimStartShorter(s[LeadingSpace(s)..]);
    }
  }

  lemma {:induction false} TrimEndShorter(s: string)
    ensures |TrimEnd(s)| <= |s|
    decreases |s|
  {
    if TrailingSpace(s) > 0 {
      TrimEndShorter(s[..|s| - TrailingSpace(s)]);
    }
  }

  lemma TrimmedHasNoSpace(s: string)
    requires Trim(s) == s
    ensures LeadingSpace(s) == 0 && TrimEnd(s) == s
  {
    TrimStartShorter(s);
    TrimEndShorter(TrimStart(s));
  }

  /** A colon is never part of a white-space character. */
  lemma NoSpaceBeforeColon(host: string, s: string)
    requires host != "" && LeadingSpace(host) == 0 && |host| < |s| && host == s[..|host|] && s[|host|] == ':'
    ensures LeadingSpace(s) == 0
  {
    assert s[0] == host[0];
    if |s| >= 2 {
      assert s[..2] == [s[0], s[1]];
      assert |host| >= 2 ==> host[..2] == s[..2];
    }
    if |s| >= 3 {
      assert s[..3] == [s[0], s[1], s[2]];
      assert |host| >= 3 ==> host[..3] == s[..3];
    }
  }

  /** Trimmed text followed by a colon has no white space to lose at its start. */
  lemma StartBeforeColon(host: string, rest: string)
    requires host != "" && Trim(host) == host
    ensures TrimStart(host) == host && TrimEnd(host) == host && TrimStart(host + ":" + rest) == host + ":" + rest
  {
    TrimmedHasNoSpace(host);
    NoSpaceBeforeColon(host, host + ":" + rest);
    TrimStartShorter(host + ":" + rest);
  }

  /** The validated host survives the round trip through the Location's authority. */
  lemma AuthorityNormalizes(host: string, port: string, standard: string)
    requires PlainHost(host)
    ensures NormalizeHost(Authority(host, port, standard)) == host
  {
    StartBeforeColon(host, port);
    LowerAllKeeps(host);
    if Authority(host, port, standard) == host {
      BeforeSplit(host, "", ':');
      assert host + "" == host && Before(host, ':') == host;
    } else {
      var b := host + ":";
      TrimEndAfter(b, port);
      var t := TrimEnd(b + port);
      assert b <= t && t == host + t[|host|..] && t[|host|] == ':' && t[0] == host[0];
      BeforeSplit(host, t[|host|..], ':');
      assert Before(t[|host|..], ':') == "" && host + "" == host;
    }
  }

  /** Whatever host a Location names, the lookup key it normalises to holds no delimiter either. */
  lemma NormalizedIsUndelimited(h: string)
    requires Undelimited(h)
    ensures Undelimited(NormalizeHost(h))
  {
    var n := NormalizeHost(h);
    forall i | 0 <= i < |n| ensures !EndsAuthority(n[i]) {
      if EndsAuthority(n[i]) {
        NormalizeIsPart(h, n[i]);
      }
    }
  }

  lemma AuthorityIsUndelimited(host: string, port: string, standard: string)
    requires Undelimited(host) && Undelimited(port)
    ensures Undelimited(Authority(host, port, standard))
  {
  }

  lemma FollowInBuilt(plain: bool, authority: string, t: string)
    requires Undelimited(authority) && t != "" && t[0] == '/'
    ensures FollowIn(plain, authority + t) == Hop(plain, authority, Before(t, '#'))
  {
    AuthorityThenPath(authority, t);
    assert (authority + t)[|authority|..] == t;
    assert Before(t, '#')[0] == '/';
  }

  /** Following `scheme://authority/...` asks for exactly that path and query, without the fragment. */
  lemma FollowBuilt(plain: bool, host: string, port: string, standard: string, t: string)
    requires Undelimited(host) && Undelimited(port) && t != "" && t[0] == '/'
    ensures var authority := Authority(host, port, standard);
            Follow((if plain then "http://" else "https://") + authority + t) == Some(Hop(plain, authority, Before(t, '#')))
  {
    var authority := Authority(host, port, standard);
    AuthorityIsUndelimited(host, port, standard);
    FollowInBuilt(plain, authority, t);
    SchemeOf(plain, authority + t);
    Assoc(if plain then "http://" else "https://", authority, t);
  }

  lemma SchemeOf(plain: bool, rest: string)
    ensures Follow((if plain then "http://" else "https://") + rest) == Some(FollowIn(plain, rest))
  {
    var location := (if plain then "http://" else "https://") + rest;
    if plain {
      assert location[4] == ':' && "https://"[4] == 's';
      assert location[7..] == rest;
    } else {
      assert location[8..] == rest;
    }
  }

  // ---------------------------------------------------------------- the next request

  /** The request that follows a redirect: same verb, the Location's host, TLS asking for that name. */
  function NextRequest(r: Request, hop: Hop): Request {
    r.(target := hop.target, host := hop.authority)
  }

  function NextListener(hop: Hop): Listener {
    if hop.plain then Plain else Tls(Some(NormalizeHost(hop.authority)))
  }

  function NextAction(v: Vhosts, r: Request, hop: Hop): Action
    requires IsBytes(hop.target)
  {
    Dispatch(v, NextListener(hop), NextRequest(r, hop))
  }

  ghost predicate PlainPorts(v: Vhosts) {
    Undelimited(v.httpPort) && Undelimited(v.httpsPort)
  }

  /** The path that a hop with an encoded path asks for is the path that was encoded. */
  lemma EncodedPathReturns(decoded: string, query: string)
    requires IsBytes(decoded) && ControlFree(decoded) && (query == "" || query[0] == '?')
    ensures var target := Before(Encode(decoded) + query, '#');
            Path(target) == Encode(decoded) && Decode(Path(target)) == Some(decoded)
  {
    EncodeIsPathSafe(decoded);
    PathSafeExcludes(Encode(decoded));
    DecodeEncode(decoded);
    BeforeSplit(Encode(decoded), query, '#');
    BeforeSplit(Encode(decoded), Before(query, '#'), '?');
    assert query == "" || Before(query, '#') == "" || Before(query, '#')[0] == '?';
    assert Encode(decoded) + "" == Encode(decoded);
  }

  lemma EncodedStart(decoded: string, query: string)
    requires IsBytes(decoded) && IsBytes(query) && decoded != "" && decoded[0] == '/'
    ensures var t := Encode(decoded) + query;
            t != "" && t[0] == '/' && IsBytes(t) && IsBytes(Before(t, '#'))
    ensures Encode(decoded) != "" && Encode(decoded)[0] == '/'
  {
    EncodeIsBytes(decoded);
    BeforeIsPrefix(Encode(decoded) + query, '#');
  }

  lemma QueryOf(target: string)
    requires IsBytes(target)
    ensures IsBytes(Query(target)) && (Query(target) == "" || Query(target)[0] == '?')
  {
    BeforeIsPrefix(target, '?');
  }

  /** Where a same-origin Location leads, before the host is looked at. */
  lemma FollowOrigin(v: Vhosts, site: Site, plain: bool, host: string, t: string) returns (hop: Hop)
    requires PlainPorts(v) && Undelimited(host) && t != "" && t[0] == '/'
    ensures Follow(Origin(v, site, plain, host) + t) == Some(hop)
    ensures hop.plain == (plain && !site.forceSsl) && hop.target == Before(t, '#')
    ensures hop.authority == if hop.plain then Authority(host, v.httpPort, "80") else Authority(host, v.httpsPort, "443")
  {
    var toPlain := plain && !site.forceSsl;
    var port, standard := if toPlain then v.httpPort else v.httpsPort, if toPlain then "80" else "443";
    FollowBuilt(toPlain, host, port, standard, t);
    hop := Hop(toPlain, Authority(host, port, standard), Before(t, '#'));
  }

  /** The path that the fold or the directory redirect leads to. */
  function NextPath(site: Site, decoded: string): string {
    if site.canonicalUrls && CanonicalForm(decoded).Some? then CanonicalForm(decoded).value else decoded + "/"
  }

  /** The plain listener sends this request to TLS as it is, before anything else could redirect it. */
  predicate Upgrades(site: Site, plain: bool, decoded: string) {
    plain && site.forceSsl && !(site.canonicalUrls && CanonicalForm(decoded).Some?)
  }

  /** What a request that is redirected has passed: a known host, and a rooted path that decodes. */
  lemma RedirectedRequest(v: Vhosts, listener: Listener, r: Request) returns (host: string, decoded: string)
    requires IsBytes(r.target) && Dispatch(v, listener, r).Redirect?
    ensures host == NormalizeHost(r.host) && host in v.sites && (r.verb == "GET" || r.verb == "HEAD")
    ensures DecodePath(Path(r.target)) == Some(decoded)
    ensures IsBytes(decoded) && ControlFree(decoded) && decoded != "" && decoded[0] == '/'
    ensures r.target != "" && r.target[0] == '/'
    ensures Dispatch(v, listener, r) == SiteAction(v, v.sites[host], listener.Plain?, host, r.target, decoded, r.keepAlive)
  {
    BeforeIsPrefix(r.target, '?');
    host := NormalizeHost(r.host);
    decoded := DecodePath(Path(r.target)).value;
    DecodedIsClean(Path(r.target));
    DecodedStart(Path(r.target));
  }

  lemma DecodedStart(path: string)
    requires path != "" && path[0] == '/' && Decode(path).Some?
    ensures Decode(path).value != "" && Decode(path).value[0] == '/'
  {
  }

  lemma NextPathShape(site: Site, decoded: string)
    requires IsBytes(decoded) && ControlFree(decoded) && decoded != "" && decoded[0] == '/'
    ensures var q := NextPath(site, decoded);
            IsBytes(q) && ControlFree(q) && q != "" && q[0] == '/' && q[|q| - 1] == '/'
  {
    assert decoded[..1] == "/";
    if site.canonicalUrls && CanonicalForm(decoded).Some? {
      CanonicalShape(decoded);
    }
  }

  /** The directory form of a path that has no slash at its end yet. */
  lemma EncodeSlash(path: string)
    requires IsBytes(path)
    ensures IsBytes(path + "/") && Encode(path + "/") == Encode(path) + "/"
    decreases |path|
  {
    if path == "" {
      assert Encode("/") == Escape('/') + Encode("/"[1..]);
    } else {
      assert (path + "/")[1..] == path[1..] + "/";
      EncodeSlash(path[1..]);
    }
  }

  /** A site with no rule for the path that does not upgrade the request redirects to its next path only. */
  lemma SiteRedirect(v: Vhosts, site: Site, plain: bool, host: string, target: string, decoded: string, keepAlive: bool)
    requires IsBytes(decoded) && ControlFree(decoded) && decoded != "" && decoded[0] == '/'
    requires Resolve(site.rules, Path(target)).None? && !Upgrades(site, plain, decoded)
    requires SiteAction(v, site, plain, host, target, decoded, keepAlive).Redirect?
    ensures IsBytes(NextPath(site, decoded))
    ensures SiteAction(v, site, plain, host, target, decoded, keepAlive).location
            == Origin(v, site, plain, host) + (Encode(NextPath(site, decoded)) + Query(target))
  {
    var origin, query := Origin(v, site, plain, host), Query(target);
    NextPathShape(site, decoded);
    if site.canonicalUrls && CanonicalForm(decoded).Some? {
      Assoc(origin, Encode(NextPath(site, decoded)), query);
    } else {
      EncodeSlash(decoded);
      Assoc(origin, Encode(decoded), "/");
      Assoc(origin, Encode(decoded) + "/", query);
    }
  }

  lemma UpgradeIsTarget(v: Vhosts, site: Site, host: string, target: string, decoded: string, keepAlive: bool)
    requires IsBytes(decoded) && site.rules == NO_RULES && Upgrades(site, true, decoded)
    requires SiteAction(v, site, true, host, target, decoded, keepAlive).Redirect?
    ensures SiteAction(v, site, true, host, target, decoded, keepAlive).location == "https://" + Authority(host, v.httpsPort, "443") + target
  {
  }

  // ---------------------------------------------------------------- where a redirect lands

  /** Following this Location gets this entry of this site. */
  ghost predicate LandsOn(v: Vhosts, r: Request, location: string, site: Site, key: string) {
    var hop := Follow(location);
    hop.Some? && IsBytes(hop.value.target) && NextAction(v, r, hop.value) == Serve(site, key, r.keepAlive)
  }

  /** Following this Location gets a 400 that closes the connection. */
  ghost predicate RefusedAt(v: Vhosts, r: Request, location: string, site: Site) {
    var hop := Follow(location);
    hop.Some? && IsBytes(hop.value.target) && NextAction(v, r, hop.value) == Fail(BadRequest, site.policy.security, false)
  }

  /** The handler takes this path to the cache: it is short enough when encoded, and ACME does not claim it. */
  predicate Servable(next: string)
    requires IsBytes(next)
  {
    !StartsWith(next, ACME_PREFIX) && |Encode(next)| < MAX_PATH_LEN
  }

  /** The host key that a same-origin Location leads to: the authority, as the handler normalises it. */
  function HostBack(v: Vhosts, site: Site, plain: bool, host: string): string {
    NormalizeHost(if plain && !site.forceSsl then Authority(host, v.httpPort, "80") else Authority(host, v.httpsPort, "443"))
  }

  /** That host key names the site again. */
  ghost predicate ComesBack(v: Vhosts, site: Site, plain: bool, host: string) {
    var back := HostBack(v, site, plain, host);
    back in v.sites && v.sites[back] == site
  }

  /** A plain host name always comes back. */
  lemma PlainHostComesBack(v: Vhosts, site: Site, plain: bool, host: string)
    requires PlainHost(host) && host in v.sites && v.sites[host] == site
    ensures HostBack(v, site, plain, host) == host && ComesBack(v, site, plain, host)
  {
    AuthorityNormalizes(host, v.httpPort, "80");
    AuthorityNormalizes(host, v.httpsPort, "443");
  }

  /** A host that comes back from a Location, and a site without redirect rules. */
  ghost predicate PlainSite(v: Vhosts, host: string) {
    PlainPorts(v) && PlainHost(host) && (host in v.sites ==> v.sites[host].rules == NO_RULES)
  }

  /** A request for a servable path that ends in a slash, on a listener that need not upgrade it. */
  lemma SlashAction(v: Vhosts, site: Site, plain: bool, host: string, target: string, next: string, keepAlive: bool, key: string)
    requires IsBytes(next) && next != "" && next[|next| - 1] == '/' && ResolvePath(site.cache, next) == Found(key)
    requires !(plain && site.forceSsl)
    ensures SiteAction(v, site, plain, host, target, next, keepAlive) == Serve(site, key, keepAlive)
            <==> !StartsWith(next, ACME_PREFIX) && Resolve(site.rules, Path(target)).None?
  {
    SlashIsFinal(next, site.cache);
  }

  /** A request for a known host and a path that decodes: only its length can still refuse it. */
  lemma KnownDispatch(v: Vhosts, listener: Listener, r: Request, host: string, decoded: string)
    requires NormalizeHost(r.host) == host && host in v.sites && (listener.Tls? && listener.sni.Some? ==> listener.sni.value == host)
    requires IsBytes(r.target) && (r.verb == "GET" || r.verb == "HEAD")
    requires Path(r.target) != "" && Path(r.target)[0] == '/' && DecodePath(Path(r.target)) == Some(decoded) && IsBytes(decoded)
    ensures Dispatch(v, listener, r) ==
            if |Path(r.target)| >= MAX_PATH_LEN then Fail(BadRequest, v.sites[host].policy.security, false)
            else SiteAction(v, v.sites[host], listener.Plain?, host, r.target, decoded, r.keepAlive)
  {
    BeforeIsPrefix(r.target, '?');
    DecodedIsClean(Path(r.target));
  }

  lemma SlashDispatch(v: Vhosts, r: Request, hop: Hop, site: Site, next: string, key: string)
    requires NormalizeHost(hop.authority) in v.sites && v.sites[NormalizeHost(hop.authority)] == site
    requires IsBytes(hop.target) && (r.verb == "GET" || r.verb == "HEAD") && (hop.plain ==> !site.forceSsl)
    requires IsBytes(next) && ValidUtf8(next) && next != "" && next[0] == '/' && next[|next| - 1] == '/'
    requires Path(hop.target) == Encode(next) && Decode(Encode(next)) == Some(next)
    requires ResolvePath(site.cache, next) == Found(key)
    ensures NextAction(v, r, hop) == Serve(site, key, r.keepAlive) <==> Servable(next) && Resolve(site.rules, Encode(next)).None?
    ensures |Encode(next)| >= MAX_PATH_LEN ==> NextAction(v, r, hop) == Fail(BadRequest, site.policy.security, false)
  {
    var host := NormalizeHost(hop.authority);
    EncodedStart(next, "");
    SlashAction(v, site, hop.plain, host, hop.target, next, r.keepAlive, key);
    KnownDispatch(v, NextListener(hop), NextRequest(r, hop), host, next);
  }

  /** Whatever is served is served by the site that the request's host names. */
  lemma ServedByHost(v: Vhosts, listener: Listener, r: Request, site: Site, key: string)
    requires IsBytes(r.target) && Dispatch(v, listener, r) == Serve(site, key, r.keepAlive)
    ensures NormalizeHost(r.host) in v.sites && v.sites[NormalizeHost(r.host)] == site
  {
  }

  lemma EncodedLanding(v: Vhosts, r: Request, plain: bool, host: string, site: Site, next: string, query: string, key: string)
    requires PlainPorts(v) && Undelimited(host) && (r.verb == "GET" || r.verb == "HEAD")
    requires IsBytes(next) && ControlFree(next) && ValidUtf8(next) && IsBytes(query) && (query == "" || query[0] == '?')
    requires next != "" && next[0] == '/' && next[|next| - 1] == '/'
    requires ResolvePath(site.cache, next) == Found(key)
    ensures LandsOn(v, r, Origin(v, site, plain, host) + (Encode(next) + query), site, key)
            <==> ComesBack(v, site, plain, host) && Servable(next) && Resolve(site.rules, Encode(next)).None?
    ensures ComesBack(v, site, plain, host) && |Encode(next)| >= MAX_PATH_LEN ==>
              RefusedAt(v, r, Origin(v, site, plain, host) + (Encode(next) + query), site)
  {
    EncodedStart(next, query);
    var hop := FollowOrigin(v, site, plain, host, Encode(next) + query);
    EncodedPathReturns(next, query);
    if ComesBack(v, site, plain, host) {
      SlashDispatch(v, r, hop, site, next, key);
    } else if NextAction(v, r, hop) == Serve(site, key, r.keepAlive) {
      ServedByHost(v, NextListener(hop), NextRequest(r, hop), site, key);
    }
  }

  lemma SwapSuffix(stem: string, from: string, to: string)
    requires Ascii(from) && Ascii(to)
    ensures ValidUtf8(stem + from) == ValidUtf8(stem) == ValidUtf8(stem + to)
  {
    AsciiSuffix(stem, from);
    AsciiSuffix(stem, to);
  }

  /** Folding replaces one ASCII suffix by another. */
  lemma FoldedStem(path: string) returns (stem: string, from: string, to: string)
    requires CanonicalForm(path).Some?
    ensures path == stem + from && CanonicalForm(path).value == stem + to && Ascii(from) && Ascii(to)
  {
    stem, from, to := path[..|path| - 5], ".html", "/";
    assert path == stem + ".html";
    if CanonicalForm(path).value != stem + "/" {
      var dir := stem[..|stem| - 5];
      assert stem == dir + "index" && dir + "" == dir;
      Assoc(dir, "index", ".html");
      stem, from, to := dir, "index" + ".html", "";
    }
  }

  lemma FoldIsUtf8(path: string)
    requires ValidUtf8(path) && CanonicalForm(path).Some?
    ensures ValidUtf8(CanonicalForm(path).value)
  {
    var stem, from, to := FoldedStem(path);
    SwapSuffix(stem, from, to);
  }

  /** The next path is text whenever the request path is. */
  lemma NextPathIsUtf8(site: Site, decoded: string)
    requires ValidUtf8(decoded)
    ensures ValidUtf8(NextPath(site, decoded))
  {
    if site.canonicalUrls && CanonicalForm(decoded).Some? {
      FoldIsUtf8(decoded);
    } else {
      AsciiSuffix(decoded, "/");
    }
  }

  lemma NextPathLands(v: Vhosts, listener: Listener, r: Request, host: string, site: Site, decoded: string, key: string)
    requires IsBytes(r.target) && Dispatch(v, listener, r).Redirect? && host == NormalizeHost(r.host)
    requires PlainPorts(v) && Undelimited(host) && host in v.sites && site == v.sites[host]
    requires DecodePath(Path(r.target)) == Some(decoded) && Resolve(site.rules, Path(r.target)).None?
    requires !Upgrades(site, listener.Plain?, decoded) && ResolvePath(site.cache, NextPath(site, decoded)) == Found(key)
    ensures IsBytes(NextPath(site, decoded))
    ensures LandsOn(v, r, Dispatch(v, listener, r).location, site, key)
            <==> ComesBack(v, site, listener.Plain?, host) && Servable(NextPath(site, decoded))
                 && Resolve(site.rules, Encode(NextPath(site, decoded))).None?
    ensures ComesBack(v, site, listener.Plain?, host) && |Encode(NextPath(site, decoded))| >= MAX_PATH_LEN ==>
              RefusedAt(v, r, Dispatch(v, listener, r).location, site)
  {
    var h, d := RedirectedRequest(v, listener, r);
    SiteRedirect(v, site, listener.Plain?, host, r.target, decoded, r.keepAlive);
    NextPathShape(site, decoded);
    NextPathIsUtf8(site, decoded);
    QueryOf(r.target);
    EncodedLanding(v, r, listener.Plain?, host, site, NextPath(site, decoded), Query(r.target), key);
  }

  /**
   The canonical redirect keeps the document, end to end: when the handler folds the path of a
   cached document, following its Location back through the handler serves that very document (or
   the `index.html` it yields to), exactly when the Location's host still names the site, the folded
   path is short enough once encoded, and neither the ACME prefix nor a rule claims it.
   */
  lemma FoldServesDocument(v: Vhosts, listener: Listener, r: Request, host: string, site: Site, decoded: string)
    requires IsBytes(r.target) && Dispatch(v, listener, r).Redirect? && host == NormalizeHost(r.host)
    requires PlainPorts(v) && Undelimited(host) && host in v.sites && site == v.sites[host]
    requires DecodePath(Path(r.target)) == Some(decoded) && Resolve(site.rules, Path(r.target)).None?
    requires site.canonicalUrls && CanonicalForm(decoded).Some? && decoded in site.cache && KeysAreDocs(site.cache)
    ensures IsBytes(CanonicalForm(decoded).value)
    ensures LandsOn(v, r, Dispatch(v, listener, r).location, site, FoldedKey(site.cache, decoded))
            <==> ComesBack(v, site, listener.Plain?, host) && Servable(CanonicalForm(decoded).value)
                 && Resolve(site.rules, Encode(CanonicalForm(decoded).value)).None?
  {
    FoldKeepsDocument(site.cache, decoded);
    NextPathLands(v, listener, r, host, site, decoded, FoldedKey(site.cache, decoded));
  }

  /** The directory redirect, end to end: it lands on its index under exactly the same condition. */
  lemma DirServesIndex(v: Vhosts, listener: Listener, r: Request, host: string, site: Site, decoded: string)
    requires IsBytes(r.target) && Dispatch(v, listener, r).Redirect? && host == NormalizeHost(r.host)
    requires PlainPorts(v) && Undelimited(host) && host in v.sites && site == v.sites[host]
    requires DecodePath(Path(r.target)) == Some(decoded) && Resolve(site.rules, Path(r.target)).None?
    requires ResolvePath(site.cache, decoded) == DirIndex
    requires !(site.canonicalUrls && CanonicalForm(decoded).Some?) && !(listener.Plain? && site.forceSsl)
    ensures IsBytes(decoded + "/")
    ensures LandsOn(v, r, Dispatch(v, listener, r).location, site, decoded + "/index.html")
            <==> ComesBack(v, site, listener.Plain?, host) && Servable(decoded + "/")
                 && Resolve(site.rules, Encode(decoded + "/")).None?
  {
    DirRedirectLands(site.cache, decoded);
    NextPathLands(v, listener, r, host, site, decoded, decoded + "/index.html");
  }

  // ---------------------------------------------------------------- redirects that land nowhere

  /**
   An IPv6 literal comes with brackets, which the handler drops and no Location puts back. So the
   Location's authority is cut at the literal's first colon, and names no site.
   */
  lemma BracketedHostIsLost(v: Vhosts, site: Site, plain: bool, host: string)
    requires host == NormalizeHost("[::1]")
    ensures host == "::1" && HostBack(v, site, plain, host) == ""
    ensures "" !in v.sites ==> !ComesBack(v, site, plain, host)
  {
    LoopbackKey();
    ColonFirst(host, v.httpPort, "80");
    ColonFirst(host, v.httpsPort, "443");
  }

  lemma LoopbackKey()
    ensures NormalizeHost("[::1]") == "::1" && Trim("::1") == "::1"
  {
    var t, key := "[::1]", "::1";
    TrimKeeps(t);
    TrimKeeps(key);
    UnbracketedKey(t, key);
  }

  lemma UnbracketedKey(t: string, key: string)
    requires Trim(t) == t && t == "[" + key + "]" && ']' !in key && forall i :: 0 <= i < |key| ==> Lower(key[i]) == key[i]
    ensures NormalizeHost(t) == key
  {
    LowerAllKeeps(key);
    assert t[1..] == key + "]" && "]"[0] == ']';
    BeforeSplit(key, "]", ']');
    assert key + "" == key;
  }

  lemma ColonFirst(host: string, port: string, standard: string)
    requires host == "::1" && Trim(host) == host
    ensures NormalizeHost(Authority(host, port, standard)) == ""
  {
    if Authority(host, port, standard) != host {
      var b := host + ":";
      StartBeforeColon(host, port);
      TrimEndAfter(b, port);
      assert b <= TrimEnd(b + port);
    }
  }

  /** A page that a tree may hold, and that the fold sends into the ACME directory. */
  ghost predicate IsAcmePage(p: string) {
    && IsBytes(p) && Path(p) == p && DecodePath(p) == Some(p) && Walk.DocKey(p) && |p| < MAX_PATH_LEN
    && !StartsWith(p, ACME_PREFIX) && CanonicalForm(p).Some? && StartsWith(CanonicalForm(p).value, ACME_PREFIX)
  }

  /** Such a page is redirected by its fold, and the redirect does not lead to it. */
  lemma AcmeFoldIsLost(v: Vhosts, listener: Listener, r: Request, host: string, site: Site, p: string)
    requires PlainSite(v, host) && host == NormalizeHost(r.host) && host in v.sites && site == v.sites[host] && site.canonicalUrls
    requires (listener.Tls? && listener.sni.Some? ==> listener.sni.value == host) && r.verb == "GET" && r.target == p
    requires IsAcmePage(p) && p in site.cache && KeysAreDocs(site.cache)
    ensures Dispatch(v, listener, r).Redirect?
    ensures !LandsOn(v, r, Dispatch(v, listener, r).location, site, FoldedKey(site.cache, p))
  {
    KnownDispatch(v, listener, r, host, p);
    FoldServesDocument(v, listener, r, host, site, p);
  }

  /** There is such a page. */
  lemma AcmePageExists() returns (p: string)
    ensures p == "/.well-known" + "/acme-challenge" + ".html" && IsAcmePage(p)
  {
    var stem := "/.well-known" + "/acme-challenge";
    p := stem + ".html";
    BarePathDecodes(p);
    AcmePageFolds(p, stem);
    AcmePageIsDoc(p);
  }

  lemma AcmePageFolds(p: string, stem: string)
    requires p == stem + ".html" && stem == "/.well-known" + "/acme-challenge"
    ensures CanonicalForm(p) == Some(ACME_PREFIX) && !StartsWith(p, ACME_PREFIX)
  {
    assert stem + "/" == ACME_PREFIX && |stem| == 27;
    LastChar(stem, "index");
    assert p[27] == '.' && ACME_PREFIX[27] == '/';
  }

  lemma AcmePageIsDoc(p: string)
    requires p == "/.well-known" + "/acme-challenge" + ".html"
    ensures Walk.DocKey(p)
  {
    var dir, name := ".well-known", "/acme-challenge" + ".html";
    assert |dir| == 11 && p == "/" + dir + name;
    assert p[1..][..11] == dir;
    assert name[0] == '/' && name[1] == 'a' && '/' !in name[1..];
    assert name == p[12..];
    forall i | 0 <= i < |p| && p[i] == '/' ensures i == 0 || i == 12 {
    }
  }

  lemma BarePathDecodes(p: string)
    requires forall i :: 0 <= i < |p| ==> Bare(p[i])
    ensures IsBytes(p) && Path(p) == p && DecodePath(p) == Some(p)
  {
    BareEncodesItself(p);
    DecodeEncode(p);
    AsciiIsUtf8(p);
    BeforeWhole(p, '?');
  }

  // ---------------------------------------------------------------- the upgrade

  /**
   The third way to be redirected without rules, the upgrade of a plain request: the next request is
   the same one on TLS exactly when its target holds no raw `#`, and then gets what TLS would have
   given it in the first place.
   */
  lemma UpgradeKeepsRequest(v: Vhosts, r: Request, site: Site, decoded: string)
    requires IsBytes(r.target) && Dispatch(v, Plain, r).Redirect? && PlainSite(v, NormalizeHost(r.host))
    requires NormalizeHost(r.host) in v.sites && site == v.sites[NormalizeHost(r.host)]
    requires DecodePath(Path(r.target)) == Some(decoded) && Upgrades(site, true, decoded)
    ensures var hop := Follow(Dispatch(v, Plain, r).location);
            && hop.Some? && !hop.value.plain && IsBytes(hop.value.target)
            && (hop.value.target == r.target <==> '#' !in r.target)
            && ('#' !in r.target ==> NextAction(v, r, hop.value) == Dispatch(v, Tls(Some(NormalizeHost(r.host))), r))
  {
    var host, d := RedirectedRequest(v, Plain, r);
    UpgradeIsTarget(v, site, host, r.target, decoded, r.keepAlive);
    FollowBuilt(false, host, v.httpsPort, "443", r.target);
    AuthorityNormalizes(host, v.httpsPort, "443");
    BeforeIsPrefix(r.target, '#');
    BeforeWhole(r.target, '#');
  }

  /** A target with a raw `#` does arrive at the handler, and the upgrade loses what follows it. */
  lemma RawHashIsLost(v: Vhosts, r: Request, host: string, site: Site)
    requires PlainSite(v, host) && host == NormalizeHost(r.host) && host in v.sites && site == v.sites[host]
    requires site.forceSsl && r.verb == "GET" && r.target == "/a#b"
    ensures IsBytes(r.target) && Dispatch(v, Plain, r).Redirect?
    ensures var hop := Follow(Dispatch(v, Plain, r).location); hop.Some? && hop.value.target == "/a"
  {
    var t := "/a#b";
    HashPathDecodes(t);
    KnownDispatch(v, Plain, r, host, t);
    UpgradeIsTarget(v, site, host, t, t, r.keepAlive);
    FollowBuilt(false, host, v.httpsPort, "443", t);
    HashCuts(t);
  }

  lemma HashPathDecodes(t: string)
    requires t == "/a#b"
    ensures IsBytes(t) && Path(t) == t && DecodePath(t) == Some(t) && CanonicalForm(t).None? && !StartsWith(t, ACME_PREFIX)
  {
    BeforeWhole(t, '?');
    assert '?' !in t && t[1] != ACME_PREFIX[1];
    DecodesToItself(t);
    AsciiIsUtf8(t);
  }

  lemma {:induction false} DecodesToItself(t: string)
    requires IsBytes(t) && ControlFree(t) && '%' !in t
    ensures Decode(t) == Some(t)
  {
    if t != "" {
      DecodesToItself(t[1..]);
      assert t == [t[0]] + t[1..];
    }
  }

  lemma HashCuts(t: string)
    requires t == "/a#b"
    ensures Before(t, '#') == "/a"
  {
    BeforeSplit("/a", "#b", '#');
    assert t == "/a" + "#b" && "/a" + "" == "/a";
  }

  lemma {:induction false} BeforeWhole(s: string, c: char)
    ensures Before(s, c) == s <==> c !in s
  {
    if s != "" && s[0] != c {
      BeforeWhole(s[1..], c);
      assert s == [s[0]] + s[1..];
    }
  }

  // ---------------------------------------------------------------- a redirect that is too long to follow

  lemma {:induction false} BareEncodesItself(s: string)
    requires forall i :: 0 <= i < |s| ==> Bare(s[i]) && s[i] as int < 0x80
    ensures IsBytes(s) && Ascii(s) && Encode(s) == s
  {
    if s != "" {
      BareEncodesItself(s[1..]);
      assert s == [s[0]] + s[1..];
    }
  }

  /** A path that is as long as the handler takes, of bytes that encode as themselves. */
  ghost predicate IsLongPath(p: string) {
    && |p| == MAX_PATH_LEN - 1 && p[0] == '/' && p[1] == 'a' && p[|p| - 1] == 'a'
    && forall i :: 0 <= i < |p| ==> p[i] == '/' || p[i] == 'a'
  }

  /** For instance one with segments of at most 254 bytes, which a file system can hold. */
  lemma LongPathExists() returns (p: string)
    ensures IsLongPath(p) && forall i :: 0 <= i < |p| ==> (p[i] == '/' <==> i % 255 == 0)
  {
    p := seq(MAX_PATH_LEN - 1, i => if i % 255 == 0 then '/' else 'a');
  }

  lemma LongPathIsOrdinary(p: string)
    requires IsLongPath(p)
    ensures IsBytes(p) && Ascii(p) && ControlFree(p) && Encode(p) == p && '?' !in p
  {
    forall i | 0 <= i < |p| ensures Bare(p[i]) && p[i] as int < 0x80 {
    }
    BareEncodesItself(p);
  }

  lemma LongPathDecodes(p: string)
    requires IsLongPath(p)
    ensures IsBytes(p) && Path(p) == p && DecodePath(p) == Some(p)
    ensures IsBytes(p + "/") && |Encode(p + "/")| == MAX_PATH_LEN
  {
    LongPathIsOrdinary(p);
    DecodeEncode(p);
    AsciiIsUtf8(p);
    BeforeWhole(p, '?');
    EncodeSlash(p);
  }

  lemma LongPathRedirects(v: Vhosts, site: Site, host: string, p: string, keepAlive: bool)
    requires IsLongPath(p) && IsBytes(p) && site.rules == NO_RULES && ResolvePath(site.cache, p) == DirIndex
    ensures SiteAction(v, site, false, host, p, p, keepAlive).Redirect? && CanonicalForm(p).None?
  {
    NotHtml(p);
    assert ACME_PREFIX[1] == '.' && p[1] == 'a';
  }

  lemma LongDirectory(site: Site, p: string)
    requires IsLongPath(p)
    requires p !in site.cache && p + ".html" !in site.cache && p + "/index.html" in site.cache
    ensures ResolvePath(site.cache, p) == DirIndex
  {
    assert p[|p| - 1..] == "a";
  }

  lemma LongPathDispatch(v: Vhosts, sni: Option<string>, r: Request, host: string, p: string)
    requires PlainSite(v, host) && host == NormalizeHost(r.host) && host in v.sites && (sni.Some? ==> sni.value == host)
    requires r.verb == "GET" && r.target == p && IsLongPath(p) && ResolvePath(v.sites[host].cache, p) == DirIndex
    ensures IsBytes(p) && Path(p) == p && DecodePath(p) == Some(p) && Dispatch(v, Tls(sni), r).Redirect?
  {
    LongPathDecodes(p);
    LongPathRedirects(v, v.sites[host], host, p, r.keepAlive);
    KnownDispatch(v, Tls(sni), r, host, p);
  }

  lemma LongNextPath(site: Site, p: string)
    requires IsLongPath(p) && ResolvePath(site.cache, p) == DirIndex
    ensures NextPath(site, p) == p + "/" && ResolvePath(site.cache, p + "/") == Found(p + "/index.html")
    ensures IsBytes(p + "/") && |Encode(p + "/")| == MAX_PATH_LEN && !StartsWith(p + "/", ACME_PREFIX)
  {
    LongPathDecodes(p);
    NotHtml(p);
    DirRedirectLands(site.cache, p);
    assert ACME_PREFIX[1] == '.' && (p + "/")[1] == 'a';
  }

  /**
   A directory whose path is as long as the handler accepts is sent to a path that the handler
   refuses: the slash makes it one byte too long. No ACME prefix is involved.
   */
  lemma LongDirectoryIsRefused(v: Vhosts, sni: Option<string>, r: Request, host: string, site: Site, p: string)
    requires PlainSite(v, host) && host == NormalizeHost(r.host) && host in v.sites && site == v.sites[host]
    requires (sni.Some? ==> sni.value == host) && r.verb == "GET" && r.target == p && IsLongPath(p)
    requires p !in site.cache && p + ".html" !in site.cache && p + "/index.html" in site.cache
    ensures IsBytes(p) && Dispatch(v, Tls(sni), r).Redirect? && !StartsWith(p + "/", ACME_PREFIX)
    ensures RefusedAt(v, r, Dispatch(v, Tls(sni), r).location, site)
  {
    LongDirectory(site, p);
    LongPathDispatch(v, sni, r, host, p);
    LongNextPath(site, p);
    PlainHostComesBack(v, site, false, host);
    NextPathLands(v, Tls(sni), r, host, site, p, p + "/index.html");
  }

  lemma NotHtml(p: string)
    requires p != "" && p[|p| - 1] == 'a'
    ensures CanonicalForm(p).None?
  {
    LastChar(p, ".html");
  }

  // ---------------------------------------------------------------- the hop bound

  /**
   A host from which no redirect rule can be reached: it comes back from a Location and its own site
   has no rules, or no site has any.
   */
  ghost predicate RuleFree(v: Vhosts, host: string) {
    && PlainPorts(v) && Undelimited(host)
    && (PlainSite(v, host) || forall h :: h in v.sites ==> v.sites[h].rules == NO_RULES)
  }

  lemma NextHostRuleFree(v: Vhosts, host: string, port: string, standard: string)
    requires RuleFree(v, host) && Undelimited(port)
    ensures RuleFree(v, NormalizeHost(Authority(host, port, standard)))
  {
    AuthorityIsUndelimited(host, port, standard);
    NormalizedIsUndelimited(Authority(host, port, standard));
    if PlainSite(v, host) {
      AuthorityNormalizes(host, port, standard);
    }
  }

  /** A path that ends in a slash is answered without a redirect, unless it must be upgraded. */
  lemma SlashSettles(v: Vhosts, site: Site, plain: bool, host: string, target: string, decoded: string, keepAlive: bool)
    requires IsBytes(decoded) && decoded != "" && decoded[|decoded| - 1] == '/' && site.rules == NO_RULES
    requires !(plain && site.forceSsl)
    ensures !SiteAction(v, site, plain, host, target, decoded, keepAlive).Redirect?
  {
    SlashIsFinal(decoded, site.cache);
  }

  /** A request for a path that ends in a slash is redirected by the upgrade of a plain request only. */
  lemma SlashRedirect(v: Vhosts, listener: Listener, r: Request, decoded: string)
    requires RuleFree(v, NormalizeHost(r.host)) && IsBytes(r.target)
    requires Decode(Path(r.target)) == Some(decoded) && decoded != "" && decoded[|decoded| - 1] == '/'
    requires Dispatch(v, listener, r).Redirect?
    ensures listener.Plain? && NormalizeHost(r.host) in v.sites && r.target != "" && r.target[0] == '/'
    ensures Dispatch(v, listener, r).location == "https://" + Authority(NormalizeHost(r.host), v.httpsPort, "443") + r.target
  {
    var host, d := RedirectedRequest(v, listener, r);
    var site := v.sites[host];
    if listener.Plain? && site.forceSsl {
      SlashIsFinal(d, site.cache);
      UpgradeIsTarget(v, site, host, r.target, d, r.keepAlive);
    } else {
      SlashSettles(v, site, listener.Plain?, host, r.target, d, r.keepAlive);
    }
  }

  /** Following this Location gets an answer that is not another redirect. */
  ghost predicate LastHop(v: Vhosts, r: Request, location: string) {
    var hop := Follow(location);
    hop.Some? && IsBytes(hop.value.target) && !NextAction(v, r, hop.value).Redirect?
  }

  /** Following this Location gets an answer that is final, or the last redirect. */
  ghost predicate SecondIsLast(v: Vhosts, r: Request, location: string) {
    var hop := Follow(location);
    hop.Some? && IsBytes(hop.value.target)
    && var next := NextAction(v, r, hop.value);
       next.Redirect? ==> LastHop(v, NextRequest(r, hop.value), next.location)
  }

  /** The upgrade of a plain request leads to TLS, with its own path and query. */
  lemma UpgradeFollows(v: Vhosts, r: Request, host: string) returns (hop: Hop)
    requires RuleFree(v, host) && IsBytes(r.target) && r.target != "" && r.target[0] == '/'
    ensures Follow("https://" + Authority(host, v.httpsPort, "443") + r.target) == Some(hop)
    ensures !hop.plain && IsBytes(hop.target) && hop.target == Before(r.target, '#')
    ensures hop.authority == Authority(host, v.httpsPort, "443") && RuleFree(v, NormalizeHost(hop.authority))
  {
    hop := Hop(false, Authority(host, v.httpsPort, "443"), Before(r.target, '#'));
    FollowBuilt(false, host, v.httpsPort, "443", r.target);
    NextHostRuleFree(v, host, v.httpsPort, "443");
    BeforeIsPrefix(r.target, '#');
  }

  /** A hop with an encoded path that ends in a slash: final on TLS, at most an upgrade on the plain listener. */
  lemma EncodedHopSettles(v: Vhosts, r: Request, hop: Hop, decoded: string)
    requires RuleFree(v, NormalizeHost(hop.authority)) && IsBytes(hop.target) && '#' !in hop.target
    requires Decode(Path(hop.target)) == Some(decoded) && decoded != "" && decoded[|decoded| - 1] == '/'
    ensures !hop.plain ==> !NextAction(v, r, hop).Redirect?
    ensures NextAction(v, r, hop).Redirect? ==> LastHop(v, NextRequest(r, hop), NextAction(v, r, hop).location)
  {
    var next := NextRequest(r, hop);
    if NextAction(v, r, hop).Redirect? {
      SlashRedirect(v, NextListener(hop), next, decoded);
      var upgraded := UpgradeFollows(v, next, NormalizeHost(hop.authority));
      BeforeWhole(hop.target, '#');
      if NextAction(v, next, upgraded).Redirect? {
        SlashRedirect(v, NextListener(upgraded), NextRequest(next, upgraded), decoded);
      }
    }
  }

  lemma EncodedTarget(decoded: string, query: string)
    requires IsBytes(decoded) && IsBytes(query) && decoded != "" && decoded[0] == '/'
    ensures '#' !in Before(Encode(decoded) + query, '#')
  {
    BeforeIsPrefix(Encode(decoded) + query, '#');
  }

  /** A redirect within the site's origin: final after TLS, one upgrade at most after the plain listener. */
  lemma SiteHop(v: Vhosts, r: Request, plain: bool, host: string, decoded: string, location: string)
    requires RuleFree(v, host) && host in v.sites && IsBytes(r.target)
    requires IsBytes(decoded) && ControlFree(decoded) && decoded != "" && decoded[0] == '/'
    requires !Upgrades(v.sites[host], plain, decoded)
    requires SiteAction(v, v.sites[host], plain, host, r.target, decoded, r.keepAlive).Redirect?
    requires location == SiteAction(v, v.sites[host], plain, host, r.target, decoded, r.keepAlive).location
    ensures SecondIsLast(v, r, location)
    ensures !(plain && !v.sites[host].forceSsl) ==> LastHop(v, r, location)
    ensures PlainHost(host) ==> LastHop(v, r, location)
  {
    var site := v.sites[host];
    var next, query := NextPath(site, decoded), Query(r.target);
    SiteRedirect(v, site, plain, host, r.target, decoded, r.keepAlive);
    NextPathShape(site, decoded);
    QueryOf(r.target);
    EncodedStart(next, query);
    EncodedPathReturns(next, query);
    EncodedTarget(next, query);
    var hop := FollowOrigin(v, site, plain, host, Encode(next) + query);
    NextHostRuleFree(v, host, v.httpPort, "80");
    NextHostRuleFree(v, host, v.httpsPort, "443");
    EncodedHopSettles(v, r, hop, next);
    if PlainHost(host) && hop.plain {
      AuthorityNormalizes(host, v.httpPort, "80");
      if NextAction(v, r, hop).Redirect? {
        NoUpgrade(v, NextRequest(r, hop), host, next);
      }
    }
  }

  /** A host that does not force TLS never upgrades. */
  lemma NoUpgrade(v: Vhosts, r: Request, host: string, decoded: string)
    requires NormalizeHost(r.host) == host && host in v.sites && !v.sites[host].forceSsl && v.sites[host].rules == NO_RULES
    requires IsBytes(r.target) && Decode(Path(r.target)) == Some(decoded) && decoded != "" && decoded[|decoded| - 1] == '/'
    ensures !Dispatch(v, Plain, r).Redirect?
  {
    if Dispatch(v, Plain, r).Redirect? {
      var h, d := RedirectedRequest(v, Plain, r);
      SlashSettles(v, v.sites[host], true, host, r.target, d, r.keepAlive);
    }
  }

  /** From the TLS listener, at most one redirect: the next answer is not another one. */
  lemma TlsHopIsLast(v: Vhosts, sni: Option<string>, r: Request)
    requires RuleFree(v, NormalizeHost(r.host)) && IsBytes(r.target) && Dispatch(v, Tls(sni), r).Redirect?
    ensures LastHop(v, r, Dispatch(v, Tls(sni), r).location)
  {
    var host, decoded := RedirectedRequest(v, Tls(sni), r);
    SiteHop(v, r, false, host, decoded, Dispatch(v, Tls(sni), r).location);
  }

  /**
   The hop bound, whatever the path, query, settings and cache, for a host from which no redirect
   rule can be reached: from the plain listener at most two redirects; and for a host that comes
   back from a Location, two only if the first is the upgrade to TLS.
   */
  lemma PlainHopBound(v: Vhosts, r: Request)
    requires RuleFree(v, NormalizeHost(r.host)) && IsBytes(r.target) && Dispatch(v, Plain, r).Redirect?
    ensures SecondIsLast(v, r, Dispatch(v, Plain, r).location)
    ensures PlainHost(NormalizeHost(r.host)) ==>
              LastHop(v, r, Dispatch(v, Plain, r).location) || !Follow(Dispatch(v, Plain, r).location).value.plain
  {
    var host, decoded := RedirectedRequest(v, Plain, r);
    var site := v.sites[host];
    if Upgrades(site, true, decoded) {
      UpgradeIsTarget(v, site, host, r.target, decoded, r.keepAlive);
      var hop := UpgradeFollows(v, r, host);
      if NextAction(v, r, hop).Redirect? {
        TlsHopIsLast(v, Some(NormalizeHost(hop.authority)), NextRequest(r, hop));
      }
    } else {
      SiteHop(v, r, true, host, decoded, Dispatch(v, Plain, r).location);
    }
  }
}
