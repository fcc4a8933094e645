/**
 From a config file to a running server (`build_runtime`, `site_policy`, `build_vhosts`): an accepted
 config over readable trees boots a table that meets everything the request path relies on, and hot
 reloads keep it so.
 */
module Runtime {
  import opened Bytes
  import opened Responses
  import opened Printers
  import opened PercentCoding
  import opened RequestHead
  import opened Entries
  import opened Walk
  import opened RedirectRules
  import opened Routing
  import opened Server
  import Connection
  import opened Boot
  import opened ConfigLines
  import opened ConfigFile

  // ---------------------------------------------------------------- caches as the builder makes them

  /** Every entry is one that the builder made, and its bodies are in the snapshot. */
  ghost predicate CacheOk(p: Policy, cache: SiteCache) {
    forall key :: key in cache.table ==> EntryOk(p, cache, key)
  }

  ghost predicate EntryOk(p: Policy, cache: SiteCache, key: string)
    requires key in cache.table
  {
    exists data: string :: EntryFrom(p, cache, key, data)
  }

  ghost predicate EntryFrom(p: Policy, cache: SiteCache, key: string, data: string)
    requires key in cache.table
  {
    || cache.table[key] == Mem(MakeCached(key, data, p))
    || (cache.table[key] == Disk(MakeDisk(key, data, p)) && HoldsBodies(cache.files, key, data, p))
  }

  lemma WalkedCacheIsOk(l: Listing, total: nat, p: Policy, s: Storage, b: Built)
    requires ListingPlain(l) && WalkListing(l, "", StartBuild(total), p, s) == Some(b)
    ensures CacheOk(p, SiteCache(b.table, b.files))
  {
    var docs := DocsOfListing(l, "", map[], p);
    ListingIndexes(l, "", StartBuild(total), map[], p, s);
    var cache := SiteCache(b.table, b.files);
    forall key | key in b.table ensures EntryOk(p, cache, key) {
      assert IndexedAs(b, key, docs[key], p, s);
      assert EntryFrom(p, cache, key, docs[key]);
    }
  }

  lemma BuiltSiteIsOk(spec: SiteSpec, total: nat, b: Built)
    requires BuiltSite(spec, total) == Some(b) && (spec.root.Tree? ==> ListingPlain(spec.root.listing))
    ensures CacheOk(spec.policy, SiteCache(b.table, b.files))
  {
    if spec.root.Tree? {
      WalkedCacheIsOk(spec.root.listing, total, spec.policy, spec.storage, b);
    }
  }

  /** Plain names in every tree; some of them may still coincide. */
  ghost predicate RootsPlain(specs: seq<SiteSpec>) {
    forall i :: 0 <= i < |specs| && specs[i].root.Tree? ==> ListingPlain(specs[i].root.listing)
  }

  ghost predicate CachesOk(v: Live) {
    |v.caches| == |v.specs| && forall i :: 0 <= i < |v.specs| ==> CacheOk(v.specs[i].policy, v.caches[i])
  }

  lemma JoinedCaches(v: Live, spec: SiteSpec, hosts: map<string, nat>, cache: SiteCache)
    requires CachesOk(v) && CacheOk(spec.policy, cache)
    ensures CachesOk(Boot.Joined(v, spec, hosts, cache))
  {
  }

  lemma OneMoreCaches(v: Live, spec: SiteSpec, v': Live)
    requires CachesOk(v) && OneMore(v, spec) == Some(v') && (spec.root.Tree? ==> ListingPlain(spec.root.listing))
    ensures CachesOk(v') && v'.specs == v.specs + [spec]
  {
    var total := Resident(v) + spec.errors.RetainedBytes();
    var b := BuiltSite(spec, total).value;
    BuiltSiteIsOk(spec, total, b);
    JoinedCaches(v, spec, HostsAdded(v.hosts, spec.hosts, |v.specs|).value, SiteCache(b.table, b.files));
  }

  lemma {:induction false} BootedCaches(specs: seq<SiteSpec>, errors: ErrorPages, v: Live)
    requires RootsPlain(specs) && Booted(specs, errors) == Some(v)
    ensures CachesOk(v) && v.specs == specs && v.errors == errors
    decreases |specs|
  {
    if specs != [] {
      var init, last := specs[..|specs| - 1], specs[|specs| - 1];
      assert specs == init + [last];
      BootedCaches(init, errors, Booted(init, errors).value);
      OneMoreCaches(Booted(init, errors).value, last, v);
    }
  }

  lemma ReloadedCaches(v: Live, i: nat, root: Root)
    requires CachesOk(v) && i < |v.specs| && (root.Tree? ==> ListingPlain(root.listing))
    ensures CachesOk(Reloaded(v, i, root)) && Reloaded(v, i, root).(caches := v.caches) == v
  {
    var spec := v.specs[i].(root := root);
    if BuiltSite(spec, Others(v, i)).Some? {
      BuiltSiteIsOk(spec, Others(v, i), BuiltSite(spec, Others(v, i)).value);
    }
  }

  // ---------------------------------------------------------------- from config to sites

  function PolicyFor(p: Policies, codecs: Codecs): Policy {
    Policy(p.tuning, codecs, SecurityLines(p.headers))
  }

  /** A configured site whose root was found in this state. */
  function SpecOf(site: SiteConfig, root: Boot.Root, codecs: Codecs, storage: Storage): SiteSpec {
    var policy := PolicyFor(site.policies, codecs);
    SiteSpec(site.hosts, root, policy, storage, NewErrorPages(policy.security))
  }

  function SpecsOf(c: Config, roots: seq<Boot.Root>, codecs: Codecs): seq<SiteSpec>
    requires |roots| == |c.sites|
  {
    seq(|roots|, i requires 0 <= i < |roots| => SpecOf(c.sites[i], roots[i], codecs, c.server.storage))
  }

  function ServerErrors(c: Config): ErrorPages {
    NewErrorPages(SecurityLines(c.server.defaults.headers))
  }

  function SiteAt(c: Config, v: Live, i: nat): Site
    requires i < |c.sites| == |v.specs| == |v.caches|
  {
    var site := c.sites[i];
    Site(site.root.Some?, v.caches[i].table, v.caches[i].files, site.forceSsl, site.canonicalUrls, site.rules, v.specs[i].policy)
  }

  /** The host table that requests are answered from. */
  function VhostsOf(c: Config, v: Live): Vhosts
    requires |c.sites| == |v.specs| == |v.caches| && forall h :: h in v.hosts ==> v.hosts[h] < |v.specs|
  {
    Vhosts(map h | h in v.hosts :: SiteAt(c, v, v.hosts[h]), c.server.port, c.server.httpPort,
           SecurityLines(c.server.defaults.headers))
  }

  // ---------------------------------------------------------------- what a parsed config guarantees

  lemma {:induction false} ArrangedHosts(lines: seq<ConfigLine>, current: Option<SiteText>, i: nat)
    requires Arrange(lines, current).Some? && (current.Some? ==> current.value.hosts != [])
    requires i < |Arrange(lines, current).value.sites|
    ensures Arrange(lines, current).value.sites[i].hosts != []
    decreases lines
  {
    if lines != [] {
      var line := lines[0];
      if line.Blank? {
        ArrangedHosts(lines[1..], current, i);
      } else if line.Close? {
        if i > 0 {
          ArrangedHosts(lines[1..], None, i - 1);
        }
      } else if line.SiteLine? {
        ArrangedHosts(lines[1..], Some(SiteText(OpenBlock(line.rest).value, [])), i);
      } else if current.Some? {
        ArrangedHosts(lines[1..], Some(current.value.(body := current.value.body + [line])), i);
      } else {
        ArrangedHosts(lines[1..], None, i);
      }
    }
  }

  lemma StepKeepsName(b: Block, line: ConfigLine, b': Block)
    requires BlockStep(b, line) == Ok(b')
    ensures b'.hosts == b.hosts
  {
  }

  lemma {:induction false} BodyKeepsHosts(b: Block, body: seq<ConfigLine>)
    requires ReadBody(b, body).Some?
    ensures ReadBody(b, body).value.hosts == b.hosts
    decreases |body|
  {
    if body != [] {
      var init, line := body[..|body| - 1], body[|body| - 1];
      BodyKeepsHosts(b, init);
      StepKeepsName(ReadBody(b, init).value, line, ReadBody(b, body).value);
    }
  }

  lemma SiteKeepsHosts(defaults: Policies, b: Block, site: SiteConfig)
    requires SiteOf(defaults, Closed(b)) == Ok(site)
    ensures site.hosts == b.hosts
  {
  }

  /** A site of a parsed config has a name, sound rules and a one-line header block. */
  ghost predicate SiteSound(c: Config, site: SiteConfig) {
    && site.hosts != [] && TargetsOk(site.rules) && HeaderLines(SecurityLines(site.policies.headers))
    && site.policies.tuning.maxTotalBytes == c.server.defaults.tuning.maxTotalBytes
  }

  ghost predicate ConfigSound(c: Config) {
    && HeaderLines(SecurityLines(c.server.defaults.headers))
    && forall i :: 0 <= i < |c.sites| ==> SiteSound(c, c.sites[i])
  }

  lemma ParsedSiteIsSound(lines: seq<ConfigLine>, d: Doc, c: Config, i: nat)
    requires Parse(lines) == Ok(c) && Arrange(lines, None) == Some(d) && i < |d.sites| == |c.sites|
    ensures SiteSound(c, c.sites[i])
  {
    ParsedHeadersAreLines(lines, d, c, i);
    ParsedRules(lines, d, c, i);
    EffectiveSetting(lines, d, c, i, Csp);
    NamedSite(lines, d, c, i);
  }

  lemma NamedSite(lines: seq<ConfigLine>, d: Doc, c: Config, i: nat)
    requires Parse(lines) == Ok(c) && Arrange(lines, None) == Some(d) && i < |d.sites| == |c.sites|
    ensures c.sites[i].hosts == d.sites[i].hosts && c.sites[i].hosts != []
  {
    SiteIsItsBlock(lines, d, c, i);
    var b := ReadBody(NewBlock(d.sites[i].hosts), d.sites[i].body).value;
    BodyKeepsHosts(NewBlock(d.sites[i].hosts), d.sites[i].body);
    SiteKeepsHosts(c.server.defaults, b, c.sites[i]);
    ArrangedHosts(lines, None, i);
  }

  lemma ServerHeadersAreLines(d: Doc, server: ConfigFile.Server)
    requires Defaults(DEFAULT_SERVER, d.tops) == Some(server)
    ensures HeaderLines(SecurityLines(server.defaults.headers))
  {
    TopsWin(d.tops, Csp);
    CspIsOneLine(LastLine(d.tops, Csp), Get(DEFAULT_POLICIES, Csp));
    SecurityLinesAreLines(server.defaults.headers);
  }

  lemma ParsedConfigIsSound(lines: seq<ConfigLine>, c: Config)
    requires Parse(lines) == Ok(c)
    ensures ConfigSound(c)
  {
    OnePassIsTwoPass(lines);
    var d := Arrange(lines, None).value;
    ServerHeadersAreLines(d, c.server);
    DocSites(lines, d, c);
    forall i | 0 <= i < |c.sites| ensures SiteSound(c, c.sites[i]) {
      ParsedSiteIsSound(lines, d, c, i);
    }
  }

  lemma DocSites(lines: seq<ConfigLine>, d: Doc, c: Config)
    requires Parse(lines) == Ok(c) && Arrange(lines, None) == Some(d)
    ensures |d.sites| == |c.sites|
  {
    OnePassIsTwoPass(lines);
    BlocksCount(d.sites);
    SitesAt(c.server.defaults, Blocks(d.sites).value);
  }

  // ---------------------------------------------------------------- the running server

  /** The MIME table: one-line values without a capital C. */
  ghost predicate MimeOk(codecs: Codecs) {
    forall url :: EntryText(codecs.mime(url))
  }

  /** A port that a listener could be bound to: digits, or none at all. */
  predicate Bindable(port: string) {
    forall i :: 0 <= i < |port| ==> '0' <= port[i] <= '9'
  }

  /** The precomputed pages of the server and of every site carry its own header block. */
  ghost predicate ErrorsBuilt(c: Config, v: Live) {
    v.errors == ServerErrors(c) && OwnErrors(v.specs)
  }

  ghost predicate OwnErrors(specs: seq<SiteSpec>) {
    forall i :: 0 <= i < |specs| ==> specs[i].errors == NewErrorPages(specs[i].policy.security)
  }

  /** The live table of this config, with caches and error pages as their builders make them. */
  ghost predicate RuntimeOk(c: Config, v: Live) {
    && CachesOk(v) && ErrorsBuilt(c, v) && |c.sites| == |v.specs| && (forall h :: h in v.hosts ==> v.hosts[h] < |v.specs|)
    && Bindable(c.server.port) && Bindable(c.server.httpPort)
    && HeaderLines(SecurityLines(c.server.defaults.headers))
    && forall i :: 0 <= i < |v.specs| ==> PolicyOk(v.specs[i].policy) && TargetsOk(c.sites[i].rules)
  }

  lemma LiveSiteIsOk(c: Config, v: Live, i: nat)
    requires RuntimeOk(c, v) && i < |v.specs|
    ensures SiteOk(SiteAt(c, v, i))
  {
    var site := SiteAt(c, v, i);
    forall key | key in site.cache ensures EntryBuilt(site, key) {
      assert EntryOk(v.specs[i].policy, v.caches[i], key);
      var data :| EntryFrom(v.specs[i].policy, v.caches[i], key, data);
      assert BuiltFrom(site, key, data);
    }
  }

  lemma RuntimeServes(c: Config, v: Live)
    requires RuntimeOk(c, v)
    ensures VhostsOk(VhostsOf(c, v))
  {
    forall h | h in v.hosts ensures SiteOk(SiteAt(c, v, v.hosts[h])) {
      LiveSiteIsOk(c, v, v.hosts[h]);
    }
  }

  lemma SpecsAreSound(c: Config, roots: seq<Boot.Root>, codecs: Codecs, specs: seq<SiteSpec>, budget: nat)
    requires |roots| == |c.sites| && specs == SpecsOf(c, roots, codecs) && MimeOk(codecs) && ConfigSound(c)
    requires budget == c.server.defaults.tuning.maxTotalBytes
    requires forall i :: 0 <= i < |roots| ==> ListingOfOk(roots[i])
    ensures SpecsOk(specs, budget) && RootsPlain(specs) && |specs| == |c.sites|
    ensures forall i :: 0 <= i < |specs| ==> PolicyOk(specs[i].policy) && TargetsOk(c.sites[i].rules)
    ensures c.server.storage == Memory ==> InMemory(specs)
    ensures OwnErrors(specs)
  {
    forall i | 0 <= i < |specs|
      ensures SpecOk(specs[i], budget) && PolicyOk(specs[i].policy) && TargetsOk(c.sites[i].rules)
      ensures specs[i].root.Tree? ==> ListingPlain(specs[i].root.listing)
    {
      assert SiteSound(c, c.sites[i]) && ListingOfOk(roots[i]);
      if roots[i].Tree? {
        OkIsPlain(roots[i].listing);
      }
    }
  }

  lemma SpecsBoot(c: Config, specs: seq<SiteSpec>, errors: ErrorPages, v: Live, budget: nat)
    requires SpecsOk(specs, budget) && RootsPlain(specs) && |specs| == |c.sites| && Booted(specs, errors) == Some(v)
    requires forall i :: 0 <= i < |specs| ==> PolicyOk(specs[i].policy) && TargetsOk(c.sites[i].rules)
    requires Bindable(c.server.port) && Bindable(c.server.httpPort)
    requires HeaderLines(SecurityLines(c.server.defaults.headers)) && errors == ServerErrors(c)
    requires OwnErrors(specs)
    ensures RuntimeOk(c, v) && LiveOk(v, budget) && (specs != [] && InMemory(specs) ==> Resident(v) <= budget)
  {
    BootFits(specs, errors, budget);
    BootedCaches(specs, errors, v);
  }

  /**
   An accepted config over readable trees boots a table that meets everything the request path
   relies on, whatever the storage; and in memory storage it is within the configured budget.
   */
  lemma ConfigBootsOk(lines: seq<ConfigLine>, c: Config, roots: seq<Boot.Root>, codecs: Codecs, specs: seq<SiteSpec>, v: Live, budget: nat)
    requires Parse(lines) == Ok(c) && |roots| == |c.sites| && MimeOk(codecs)
    requires Bindable(c.server.port) && Bindable(c.server.httpPort)
    requires forall i :: 0 <= i < |roots| ==> ListingOfOk(roots[i])
    requires specs == SpecsOf(c, roots, codecs) && Booted(specs, ServerErrors(c)) == Some(v)
    requires budget == c.server.defaults.tuning.maxTotalBytes
    ensures RuntimeOk(c, v) && VhostsOk(VhostsOf(c, v)) && LiveOk(v, budget)
    ensures c.server.storage == Memory && c.sites != [] ==> Resident(v) <= budget
  {
    ParsedConfigIsSound(lines, c);
    SpecsAreSound(c, roots, codecs, specs, budget);
    SpecsBoot(c, specs, ServerErrors(c), v, budget);
    RuntimeServes(c, v);
  }

  /** A hot reload keeps it so, whether the build succeeds or not. */
  lemma ReloadKeepsRuntime(c: Config, v: Live, i: nat, root: Boot.Root)
    requires RuntimeOk(c, v) && i < |v.specs| && (root.Tree? ==> ListingPlain(root.listing))
    ensures RuntimeOk(c, Reloaded(v, i, root)) && VhostsOk(VhostsOf(c, Reloaded(v, i, root)))
  {
    ReloadedCaches(v, i, root);
    RuntimeServes(c, Reloaded(v, i, root));
  }

  // ---------------------------------------------------------------- failures are precomputed and paid for

  /** This response is one of the precomputed ones that the runtime retains and has charged. */
  ghost predicate Precomputed(v: Live, page: Page, keepAlive: bool, isHead: bool, wire: string) {
    exists errors: ErrorPages :: Retains(v, errors) && PageOf(errors, page, keepAlive, isHead, wire)
  }

  ghost predicate Retains(v: Live, errors: ErrorPages) {
    (errors == v.errors || exists i :: 0 <= i < |v.specs| && errors == v.specs[i].errors) && errors.RetainedBytes() <= Resident(v)
  }

  ghost predicate PageOf(errors: ErrorPages, page: Page, keepAlive: bool, isHead: bool, wire: string) {
    var p := errors.Of(page);
    && p.ka.headerLen <= |p.ka.full| && p.close.headerLen <= |p.close.full|
    && wire == p.Bytes(keepAlive, isHead) && |wire| <= errors.RetainedBytes()
  }

  lemma BuiltPage(page: Page, security: seq<string>, keepAlive: bool, isHead: bool)
    ensures PageOf(NewErrorPages(security), page, keepAlive, isHead, FailReply(page, security, keepAlive, isHead).wire)
  {
    PagesAreBuilt(page, security);
    PageLength(BuildStatus(page, security), keepAlive, isHead);
    PageRetained(NewErrorPages(security), page);
  }

  lemma PageLength(p: StatusResponse, keepAlive: bool, isHead: bool)
    requires p.ka.headerLen <= |p.ka.full| && p.close.headerLen <= |p.close.full|
    ensures |p.Bytes(keepAlive, isHead)| <= p.RetainedBytes()
  {
  }

  lemma PageRetained(errors: ErrorPages, page: Page)
    ensures errors.Of(page).RetainedBytes() <= errors.RetainedBytes()
  {
  }

  lemma RetainsSite(v: Live, i: nat)
    requires i < |v.specs|
    ensures Retains(v, v.specs[i].errors)
  {
    SumAtLeast(ErrorSizes(v.specs), i);
  }

  /** A refusal speaks for the server, or for the site of the request. */
  lemma FailsAs(v: Vhosts, listener: Listener, r: Request)
    requires IsBytes(r.target) && Dispatch(v, listener, r).Fail?
    ensures var security := Dispatch(v, listener, r).security;
            security == v.security || exists host :: host in v.sites && security == v.sites[host].policy.security
  {
    BeforeIsPrefix(r.target, '?');
    var host := NormalizeHost(r.host);
    assert host in v.sites ==> v.sites[host].policy.security == v.sites[host].policy.security;
    if host in v.sites && DecodePath(Path(r.target)).Some? {
      DecodedIsClean(Path(r.target));
      var decoded := DecodePath(Path(r.target)).value;
      SiteActionOwn(v, v.sites[host], listener.Plain?, host, r.target, decoded, r.keepAlive,
                    SiteAction(v, v.sites[host], listener.Plain?, host, r.target, decoded, r.keepAlive));
    }
  }

  /** Refusals that speak for the server. */
  lemma ServerFailure(c: Config, v: Live, page: Page, keepAlive: bool, isHead: bool)
    requires ErrorsBuilt(c, v)
    ensures Precomputed(v, page, keepAlive, isHead, FailReply(page, SecurityLines(c.server.defaults.headers), keepAlive, isHead).wire)
  {
    BuiltPage(page, SecurityLines(c.server.defaults.headers), keepAlive, isHead);
    assert Retains(v, v.errors);
  }

  /** Refusals that speak for a site. */
  lemma SiteFailure(c: Config, v: Live, i: nat, page: Page, keepAlive: bool, isHead: bool)
    requires ErrorsBuilt(c, v) && i < |v.specs|
    ensures Precomputed(v, page, keepAlive, isHead, FailReply(page, v.specs[i].policy.security, keepAlive, isHead).wire)
  {
    BuiltPage(page, v.specs[i].policy.security, keepAlive, isHead);
    RetainsSite(v, i);
  }

  /**
   No refusal is made up on the way: whatever the routing refuses, for whatever reason, is answered
   with a response that was built at boot, whose bytes are part of what the runtime retains.
   */
  lemma FailuresAreCharged(c: Config, v: Live, listener: Listener, r: Request, a: Action, isHead: bool)
    requires RuntimeOk(c, v) && IsBytes(r.target) && a == Dispatch(VhostsOf(c, v), listener, r) && a.Fail?
    ensures Precomputed(v, a.page, a.keepAlive, isHead, FailReply(a.page, a.security, a.keepAlive, isHead).wire)
  {
    var sites := VhostsOf(c, v);
    FailsAs(sites, listener, r);
    if a.security == sites.security {
      ServerFailure(c, v, a.page, a.keepAlive, isHead);
    } else {
      var host :| host in sites.sites && a.security == sites.sites[host].policy.security;
      SiteFailure(c, v, v.hosts[host], a.page, a.keepAlive, isHead);
    }
  }

  /** So are the 400 to a head that cannot be parsed, and what the connection loop itself sends. */
  lemma EarlyFailuresAreCharged(c: Config, v: Live, isHead: bool)
    requires RuntimeOk(c, v)
    ensures Precomputed(v, BadRequest, false, isHead, FailReply(BadRequest, VhostsOf(c, v).security, false, isHead).wire)
    ensures Precomputed(v, HeadersTooLarge, false, false, TooLargePage(VhostsOf(c, v)))
    ensures Precomputed(v, RequestTimeout, false, false, TimeoutPage(VhostsOf(c, v)))
  {
    ServerFailure(c, v, BadRequest, false, isHead);
    ServerFailure(c, v, HeadersTooLarge, false, false);
    ServerFailure(c, v, RequestTimeout, false, false);
  }

  // ---------------------------------------------------------------- the storage setting is invisible

  /** Two caches of the same documents, each in its own storage. */
  ghost predicate CacheTwins(p: Policy, m: SiteCache, d: SiteCache) {
    m.table.Keys == d.table.Keys && forall key :: key in m.table && key in d.table ==> DocumentTwins(p, m, d, key)
  }

  ghost predicate DocumentTwins(p: Policy, m: SiteCache, d: SiteCache, key: string)
    requires key in m.table && key in d.table
  {
    exists data: string :: EntryFrom(p, m, key, data) && EntryFrom(p, d, key, data)
  }

  lemma WalkedTwins(l: Listing, total1: nat, total2: nat, p: Policy, s1: Storage, s2: Storage, b1: Built, b2: Built)
    requires ListingPlain(l)
    requires WalkListing(l, "", StartBuild(total1), p, s1) == Some(b1) && WalkListing(l, "", StartBuild(total2), p, s2) == Some(b2)
    ensures CacheTwins(p, SiteCache(b1.table, b1.files), SiteCache(b2.table, b2.files))
  {
    var docs := DocsOfListing(l, "", map[], p);
    var m, d := SiteCache(b1.table, b1.files), SiteCache(b2.table, b2.files);
    ListingIndexes(l, "", StartBuild(total1), map[], p, s1);
    ListingIndexes(l, "", StartBuild(total2), map[], p, s2);
    forall key | key in m.table && key in d.table ensures DocumentTwins(p, m, d, key) {
      assert IndexedAs(b1, key, docs[key], p, s1) && IndexedAs(b2, key, docs[key], p, s2);
      assert EntryFrom(p, m, key, docs[key]) && EntryFrom(p, d, key, docs[key]);
    }
  }

  /** One configured site under two storages. */
  ghost predicate SpecTwins(a: SiteSpec, b: SiteSpec) {
    a.(storage := b.storage) == b && (a.root.Tree? ==> ListingPlain(a.root.listing))
  }

  lemma BuiltTwins(a: SiteSpec, b: SiteSpec, total1: nat, total2: nat, b1: Built, b2: Built)
    requires SpecTwins(a, b) && BuiltSite(a, total1) == Some(b1) && BuiltSite(b, total2) == Some(b2)
    ensures CacheTwins(a.policy, SiteCache(b1.table, b1.files), SiteCache(b2.table, b2.files))
  {
    if a.root.Tree? {
      WalkedTwins(a.root.listing, total1, total2, a.policy, a.storage, b.storage, b1, b2);
    }
  }

  ghost predicate LiveTwins(v: Live, w: Live) {
    && v.hosts == w.hosts && |v.specs| == |v.caches| == |w.specs| == |w.caches|
    && forall i :: 0 <= i < |v.specs| ==> SpecTwins(v.specs[i], w.specs[i]) && CacheTwins(v.specs[i].policy, v.caches[i], w.caches[i])
  }

  lemma JoinedTwins(v: Live, w: Live, a: SiteSpec, b: SiteSpec, hosts: map<string, nat>, m: SiteCache, d: SiteCache)
    requires LiveTwins(v, w) && SpecTwins(a, b) && CacheTwins(a.policy, m, d)
    ensures LiveTwins(Boot.Joined(v, a, hosts, m), Boot.Joined(w, b, hosts, d))
  {
  }

  lemma OneMoreTwins(v: Live, w: Live, a: SiteSpec, b: SiteSpec, v': Live, w': Live)
    requires LiveTwins(v, w) && SpecTwins(a, b) && OneMore(v, a) == Some(v') && OneMore(w, b) == Some(w')
    ensures LiveTwins(v', w')
  {
    var total1, b1, hosts := OneMoreIs(v, a, v');
    var total2, b2, same := OneMoreIs(w, b, w');
    BuiltTwins(a, b, total1, total2, b1, b2);
    JoinedTwins(v, w, a, b, hosts, SiteCache(b1.table, b1.files), SiteCache(b2.table, b2.files));
  }

  lemma OneMoreIs(v: Live, spec: SiteSpec, v': Live) returns (total: nat, b: Built, hosts: map<string, nat>)
    requires OneMore(v, spec) == Some(v')
    ensures BuiltSite(spec, total) == Some(b) && HostsAdded(v.hosts, spec.hosts, |v.specs|) == Some(hosts)
    ensures v' == Boot.Joined(v, spec, hosts, SiteCache(b.table, b.files))
  {
    total := Resident(v) + spec.errors.RetainedBytes();
    b, hosts := BuiltSite(spec, total).value, HostsAdded(v.hosts, spec.hosts, |v.specs|).value;
  }

  lemma {:induction false} BootedTwins(specs: seq<SiteSpec>, others: seq<SiteSpec>, errors: ErrorPages, v: Live, w: Live)
    requires |specs| == |others| && forall i :: 0 <= i < |specs| ==> SpecTwins(specs[i], others[i])
    requires Booted(specs, errors) == Some(v) && Booted(others, errors) == Some(w)
    ensures LiveTwins(v, w)
    decreases |specs|
  {
    if specs != [] {
      var n := |specs| - 1;
      var v0, w0 := Booted(specs[..n], errors).value, Booted(others[..n], errors).value;
      BootedTwins(specs[..n], others[..n], errors, v0, w0);
      OneMoreTwins(v0, w0, specs[n], others[n], v, w);
    }
  }

  lemma ConfiguredTwins(c: Config, d: Config, roots: seq<Boot.Root>, codecs: Codecs, specs: seq<SiteSpec>, others: seq<SiteSpec>)
    requires c.sites == d.sites && |roots| == |c.sites| && specs == SpecsOf(c, roots, codecs) && others == SpecsOf(d, roots, codecs)
    requires forall i :: 0 <= i < |roots| ==> ListingOfOk(roots[i])
    ensures |specs| == |others| && forall i :: 0 <= i < |specs| ==> SpecTwins(specs[i], others[i])
  {
    forall i | 0 <= i < |specs| ensures SpecTwins(specs[i], others[i]) {
      assert ListingOfOk(roots[i]);
      if roots[i].Tree? {
        OkIsPlain(roots[i].listing);
      }
    }
  }

  lemma SitesAreTwins(c: Config, d: Config, v: Live, w: Live, i: nat)
    requires RuntimeOk(c, v) && RuntimeOk(d, w) && c.sites == d.sites && LiveTwins(v, w) && i < |v.specs|
    ensures SiteTwins(SiteAt(c, v, i), SiteAt(d, w, i))
  {
    var a, b := SiteAt(c, v, i), SiteAt(d, w, i);
    var p := v.specs[i].policy;
    assert SpecTwins(v.specs[i], w.specs[i]) && CacheTwins(p, v.caches[i], w.caches[i]);
    forall key | key in a.cache && key in b.cache ensures EntryTwins(a, b, key) {
      assert DocumentTwins(p, v.caches[i], w.caches[i], key);
      var data: string :| EntryFrom(p, v.caches[i], key, data) && EntryFrom(p, w.caches[i], key, data);
      assert BuiltFrom(a, key, data) && BuiltFrom(b, key, data);
    }
  }

  lemma TablesAreTwins(c: Config, d: Config, v: Live, w: Live)
    requires RuntimeOk(c, v) && RuntimeOk(d, w) && c.(server := d.server) == d && LiveTwins(v, w)
    requires c.server.(storage := d.server.storage) == d.server
    ensures VhostTwins(VhostsOf(c, v), VhostsOf(d, w))
  {
    forall h | h in v.hosts ensures SiteTwins(SiteAt(c, v, v.hosts[h]), SiteAt(d, w, w.hosts[h])) {
      SitesAreTwins(c, d, v, w, v.hosts[h]);
    }
  }

  /**
   The storage setting is invisible to clients: the same config over the same trees, once with its
   documents in memory and once on disk, answers every connection with the same bytes.
   */
  lemma StorageSettingIsInvisible(c: Config, d: Config, roots: seq<Boot.Root>, codecs: Codecs, v: Live, w: Live, listener: Listener, read: TokenReader, s: string)
    requires c.(server := d.server) == d && c.server.(storage := d.server.storage) == d.server && |roots| == |c.sites|
    requires forall i :: 0 <= i < |roots| ==> ListingOfOk(roots[i])
    requires Booted(SpecsOf(c, roots, codecs), ServerErrors(c)) == Some(v) && Booted(SpecsOf(d, roots, codecs), ServerErrors(d)) == Some(w)
    requires RuntimeOk(c, v) && RuntimeOk(d, w)
    ensures VhostsOk(VhostsOf(c, v)) && VhostsOk(VhostsOf(d, w))
    ensures var a, b := VhostsOf(c, v), VhostsOf(d, w);
            Connection.Answers(HandlerOf(a, listener, read), TooLargePage(a), s, 0)
            == Connection.Answers(HandlerOf(b, listener, read), TooLargePage(b), s, 0)
  {
    var specs, others := SpecsOf(c, roots, codecs), SpecsOf(d, roots, codecs);
    ConfiguredTwins(c, d, roots, codecs, specs, others);
    BootedTwins(specs, others, ServerErrors(c), v, w);
    RuntimeServes(c, v);
    RuntimeServes(d, w);
    TablesAreTwins(c, d, v, w);
    ConnectionTwins(VhostsOf(c, v), VhostsOf(d, w), listener, read, s);
  }
}
