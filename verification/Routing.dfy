/**
 From a parsed request to an action (`handle_request` after the head): host lookup, the four
 ways to answer 301, and resolution of a path to a cache entry.
 */
module Routing {
  import opened Bytes
  import opened PercentCoding
  import opened RequestHead
  import opened Redirects
  import opened RedirectRules
  import opened Entries
  import opened Walk
  import opened Printers

  const ACME_PREFIX := "/.well-known" + "/acme-challenge/"
  const MAX_PATH_LEN: nat := 1024

  // ---------------------------------------------------------------- paths

  function StripSuffix(s: string, suffix: string): Option<string> {
    if EndsWith(s, suffix) then Some(s[..|s| - |suffix|]) else None
  }

  /** The directory form of a path that spells itself with `.html`. */
  function CanonicalForm(path: string): Option<string> {
    match StripSuffix(path, ".html")
    case None => None
    case Some(stem) =>
      match StripSuffix(stem, "index")
      case Some(dir) => Some(if dir == "" || EndsWith(dir, "/") then dir else stem + "/")
      case None => Some(stem + "/")
  }

  function TrimEndSlashes(s: string): string {
    if s != "" && s[|s| - 1] == '/' then TrimEndSlashes(s[..|s| - 1]) else s
  }

  datatype Resolved = Found(key: string) | DirIndex | Missing

  /** Which key of the table a decoded path names, if any. */
  function ResolvePath(table: Cache, path: string): (r: Resolved)
    ensures r.Found? ==> r.key in table
  {
    if EndsWith(path, "/") then
      var html := TrimEndSlashes(path) + ".html";
      if path + "index.html" in table then Found(path + "index.html")
      else if TrimEndSlashes(path) != "" && html in table then Found(html)
      else Missing
    else if path in table then Found(path)
    else if path + ".html" in table then Found(path + ".html")
    else if path + "/index.html" in table then DirIndex
    else Missing
  }

  // ---------------------------------------------------------------- hosts

  function Before(s: string, c: char): (r: string)
    ensures |r| <= |s|
  {
    if s == "" || s[0] == c then "" else [s[0]] + Before(s[1..], c)
  }

  function NormalizeHost(h: string): string {
    var t := Trim(h);
    LowerAll(if t != "" && t[0] == '[' then Before(t[1..], ']') else Before(t, ':'))
  }

  function Authority(host: string, port: string, standard: string): string {
    if port == "" || port == standard then host else host + ":" + port
  }

  // ---------------------------------------------------------------- sites

  datatype Site = Site(hasRoot: bool, cache: Cache, files: Files, forceSsl: bool, canonicalUrls: bool, rules: Rules, policy: Policy)

  datatype Vhosts = Vhosts(sites: map<string, Site>, httpsPort: string, httpPort: string, security: seq<string>)

  /** The listener a request came in on: plain HTTP, or TLS with the name asked for in SNI. */
  datatype Listener = Plain | Tls(sni: Option<string>)

  /** What is done about a request; the Connection state goes with every answer. */
  datatype Action =
    | Fail(page: Page, security: seq<string>, keepAlive: bool)
    | Redirect(location: string, security: seq<string>, keepAlive: bool)
    | Serve(site: Site, key: string, keepAlive: bool)
    | Token(site: Site, name: string, keepAlive: bool)

  function Path(target: string): string {
    Before(target, '?')
  }

  function Query(target: string): string {
    target[|Path(target)|..]
  }

  lemma {:induction false} BeforeIsPrefix(s: string, c: char)
    ensures Before(s, c) <= s && c !in Before(s, c)
    ensures |Before(s, c)| < |s| ==> s[|Before(s, c)|] == c
  {
    if s != "" && s[0] != c {
      BeforeIsPrefix(s[1..], c);
    }
  }

  /** A host key holds nothing but lower-case letters that the Host value did not hold. */
  lemma NormalizeIsPart(h: string, c: char)
    requires c in NormalizeHost(h) && !('a' <= c <= 'z')
    ensures c in h
  {
    var t := Trim(h);
    var name := if t != "" && t[0] == '[' then Before(t[1..], ']') else Before(t, ':');
    LowerAllIsPart(name, c);
    BeforeIsPrefix(t, ':');
    if t != "" {
      BeforeIsPrefix(t[1..], ']');
    }
    assert c in t;
    TrimIsPart(h, c);
  }

  function DecodePath(path: string): Option<string> {
    match Decode(path)
    case None => None
    case Some(d) => if ValidUtf8(d) then Some(d) else None
  }

  /** Scheme and authority of a same-host redirect. */
  function Origin(v: Vhosts, site: Site, plain: bool, host: string): string {
    if plain && !site.forceSsl then "http://" + Authority(host, v.httpPort, "80")
    else "https://" + Authority(host, v.httpsPort, "443")
  }

  /** The Location of a configured rule; the query is re-attached unless the target has one. */
  function RuleLocation(to: string, origin: string, query: string): string {
    (if IsAbsolute(to) then to else origin + to) + (if '?' in to then "" else query)
  }

  /** The part of the handler that runs once the site is known and the path is decoded. */
  function SiteAction(v: Vhosts, site: Site, plain: bool, host: string, target: string, decoded: string, keepAlive: bool): Action
    requires IsBytes(decoded)
  {
    BeforeIsPrefix(target, '?');
    var path, query := Path(target), Query(target);
    var sec := site.policy.security;
    var acme := StartsWith(decoded, ACME_PREFIX);
    var origin := Origin(v, site, plain, host);
    if acme then
      if site.hasRoot then Token(site, decoded[|ACME_PREFIX|..], keepAlive) else Fail(NotFound, sec, keepAlive)
    else if Resolve(site.rules, path).Some? then
      Redirect(RuleLocation(Resolve(site.rules, path).value, origin, query), sec, keepAlive)
    else if site.canonicalUrls && CanonicalForm(decoded).Some? then
      CanonicalIsBytes(decoded);
      Redirect(origin + Encode(CanonicalForm(decoded).value) + query, sec, keepAlive)
    else if plain && site.forceSsl then
      Redirect("https://" + Authority(host, v.httpsPort, "443") + target, sec, keepAlive)
    else match ResolvePath(site.cache, decoded)
      case Found(key) => Serve(site, key, keepAlive)
      case DirIndex => Redirect(origin + Encode(decoded) + "/" + query, sec, keepAlive)
      case Missing => Fail(NotFound, sec, keepAlive)
  }

  lemma CanonicalIsBytes(path: string)
    requires IsBytes(path) && CanonicalForm(path).Some?
    ensures IsBytes(CanonicalForm(path).value)
  {
  }

  function Dispatch(v: Vhosts, listener: Listener, r: Request): Action
    requires IsBytes(r.target)
  {
    BeforeIsPrefix(r.target, '?');
    var host := NormalizeHost(r.host);
    if listener.Tls? && listener.sni.Some? && listener.sni.value != host then Fail(NotFound, v.security, r.keepAlive)
    else if host !in v.sites then Fail(NotFound, v.security, r.keepAlive)
    else
      var site := v.sites[host];
      var path := Path(r.target);
      if r.verb != "GET" && r.verb != "HEAD" then Fail(MethodNotAllowed, site.policy.security, r.keepAlive)
      else if path == "" || path[0] != '/' || |path| >= MAX_PATH_LEN then Fail(BadRequest, site.policy.security, false)
      else if DecodePath(path).None? then Fail(BadRequest, site.policy.security, false)
      else
        DecodedIsClean(path);
        SiteAction(v, site, listener.Plain?, host, r.target, DecodePath(path).value, r.keepAlive)
  }

  /** Route a request with the coding loops of the server. */
  method RouteRequest(v: Vhosts, listener: Listener, r: Request) returns (a: Action)
    requires IsBytes(r.target)
    ensures a == Dispatch(v, listener, r)
  {
    BeforeIsPrefix(r.target, '?');
    var host := NormalizeHost(r.host);
    if listener.Tls? && listener.sni.Some? && listener.sni.value != host {
      return Fail(NotFound, v.security, r.keepAlive);
    }
    if host !in v.sites {
      return Fail(NotFound, v.security, r.keepAlive);
    }
    var site := v.sites[host];
    var path := Path(r.target);
    if r.verb != "GET" && r.verb != "HEAD" {
      return Fail(MethodNotAllowed, site.policy.security, r.keepAlive);
    }
    if path == "" || path[0] != '/' || |path| >= MAX_PATH_LEN {
      return Fail(BadRequest, site.policy.security, false);
    }
    var decoded := PercentDecode(path);
    if decoded.None? || !ValidUtf8(decoded.value) {
      return Fail(BadRequest, site.policy.security, false);
    }
    DecodedIsClean(path);
    a := RouteSite(v, site, listener.Plain?, host, r.target, decoded.value, r.keepAlive);
  }

  method RouteSite(v: Vhosts, site: Site, plain: bool, host: string, target: string, decoded: string, keepAlive: bool) returns (a: Action)
    requires IsBytes(decoded)
    ensures a == SiteAction(v, site, plain, host, target, decoded, keepAlive)
  {
    BeforeIsPrefix(target, '?');
    var path, query, sec := Path(target), Query(target), site.policy.security;
    var acme := StartsWith(decoded, ACME_PREFIX);
    var origin := Origin(v, site, plain, host);
    if !acme {
      var to := Resolve(site.rules, path);
      if to.Some? {
        return Redirect(RuleLocation(to.value, origin, query), sec, keepAlive);
      }
      if site.canonicalUrls && CanonicalForm(decoded).Some? {
        CanonicalIsBytes(decoded);
        var encoded := PercentEncodePath(CanonicalForm(decoded).value);
        return Redirect(origin + encoded + query, sec, keepAlive);
      }
      if plain && site.forceSsl {
        return Redirect("https://" + Authority(host, v.httpsPort, "443") + target, sec, keepAlive);
      }
    } else {
      return if site.hasRoot then Token(site, decoded[|ACME_PREFIX|..], keepAlive) else Fail(NotFound, sec, keepAlive);
    }
    match ResolvePath(site.cache, decoded) {
      case Found(key) =>
        return Serve(site, key, keepAlive);
      case DirIndex =>
        var encoded := PercentEncodePath(decoded);
        return Redirect(origin + encoded + "/" + query, sec, keepAlive);
      case Missing =>
        return Fail(NotFound, sec, keepAlive);
    }
  }

  // ---------------------------------------------------------------- canonical and directory redirects keep the document

  lemma LastChar(s: string, suffix: string)
    requires suffix != ""
    ensures EndsWith(s, suffix) ==> s != "" && s[|s| - 1] == suffix[|suffix| - 1]
  {
    assert EndsWith(s, suffix) ==> s[|s| - |suffix|..][|suffix| - 1] == s[|s| - 1];
  }

  /** A rooted path folds onto a rooted path that ends in a slash. */
  lemma CanonicalShape(path: string)
    requires CanonicalForm(path).Some? && StartsWith(path, "/")
    ensures var q := CanonicalForm(path).value;
            q != "" && q[0] == '/' && q[|q| - 1] == '/'
  {
    var stem := path[..|path| - 5];
    assert path == stem + ".html";
    assert path[0] == '/';
    assert stem != "" && stem[0] == '/';
    if EndsWith(stem, "index") {
      var dir := stem[..|stem| - 5];
      assert stem == dir + "index";
      assert dir != "";
      LastChar(dir, "/");
    }
  }

  /** What a fold leads to never folds again, and is never a bare directory name. */
  lemma CanonicalIsFinal(path: string, table: Cache)
    requires CanonicalForm(path).Some? && StartsWith(path, "/")
    ensures CanonicalForm(CanonicalForm(path).value).None?
    ensures ResolvePath(table, CanonicalForm(path).value) != DirIndex
  {
    CanonicalShape(path);
    SlashIsFinal(CanonicalForm(path).value, table);
  }

  lemma SlashIsFinal(q: string, table: Cache)
    requires q != "" && q[|q| - 1] == '/'
    ensures CanonicalForm(q).None? && ResolvePath(table, q) != DirIndex
  {
    LastChar(q, ".html");
    assert q[|q| - 1..] == "/";
  }

  lemma TrimOneEndSlash(s: string)
    requires s != "" && s[|s| - 1] != '/'
    ensures TrimEndSlashes(s + "/") == s
  {
    assert (s + "/")[..|s|] == s;
  }

  ghost predicate KeysAreDocs(table: Cache) {
    forall url :: url in table ==> DocKey(url)
  }

  /** The stem of a document's key is itself a path that does not end in a slash. */
  lemma StemOfKey(stem: string)
    requires DocKey(stem + ".html")
    ensures stem != "" && stem[|stem| - 1] != '/'
  {
    assert (stem + ".html")[|stem|] == '.' && (stem + ".html")[|stem|..] == ".html";
  }

  /** The key that a folded key is served from. */
  function FoldedKey(table: Cache, key: string): string
    requires CanonicalForm(key).Some?
  {
    var stem := key[..|key| - 5];
    if CanonicalForm(key).value == stem + "/" && stem + "/index.html" in table then stem + "/index.html" else key
  }

  /**
   The canonical redirect keeps the document: what a key folds onto serves that very key, except
   that `s.html` yields to a `s/index.html` that is there as well.
   */
  lemma FoldKeepsDocument(table: Cache, key: string)
    requires KeysAreDocs(table) && key in table && CanonicalForm(key).Some?
    ensures ResolvePath(table, CanonicalForm(key).value) == Found(FoldedKey(table, key))
  {
    var stem := key[..|key| - 5];
    var q := CanonicalForm(key).value;
    assert key == stem + ".html";
    StemOfKey(stem);
    if q == stem + "/" {
      TrimOneEndSlash(stem);
      assert q + "index.html" == stem + "/index.html";
      assert q[|q| - 1..] == "/";
    } else {
      var dir := stem[..|stem| - 5];
      assert stem == dir + "index" && q == dir;
      assert dir + "index.html" == key;
    }
  }

  /** The directory redirect always lands on the index it was sent for. */
  lemma DirRedirectLands(table: Cache, path: string)
    requires ResolvePath(table, path) == DirIndex
    ensures ResolvePath(table, path + "/") == Found(path + "/index.html")
  {
    assert (path + "/")[|path|..] == "/";
    assert path + "/" + "index.html" == path + "/index.html";
  }

  /** The caches that a walk builds have such keys. */
  lemma BuiltKeysAreDocs(l: Listing, total: nat, p: Policy, s: Storage)
    requires ListingPlain(l) && WalkListing(l, "", StartBuild(total), p, s).Some?
    ensures KeysAreDocs(WalkListing(l, "", StartBuild(total), p, s).value.table)
  {
    ListingIndexes(l, "", StartBuild(total), map[], p, s);
    ListingDocKeys(l, "", map[], p);
  }
}
