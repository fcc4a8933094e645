/**
 One byte budget over all sites: the boot accounting (`build_vhosts`, `error_page_bytes`) and the
 per-site hot reloads of the watcher.
 */
module Boot {
  import opened Bytes
  import opened Printers
  import opened Entries
  import opened Walk
  import opened Budget

  // ---------------------------------------------------------------- sums over sites

  function Sum(xs: seq<nat>): nat {
    if xs == [] then 0 else Sum(xs[..|xs| - 1]) + xs[|xs| - 1]
  }

  lemma SumSnoc(xs: seq<nat>, x: nat)
    ensures Sum(xs + [x]) == Sum(xs) + x
  {
    assert (xs + [x])[..|xs|] == xs;
  }

  lemma {:induction false} SumUpdate(xs: seq<nat>, i: nat, x: nat)
    requires i < |xs|
    ensures Sum(xs[i := x]) + xs[i] == Sum(xs) + x
    decreases |xs|
  {
    var n := |xs| - 1;
    if i == n {
      assert xs[i := x][..n] == xs[..n];
    } else {
      SumUpdate(xs[..n], i, x);
      assert xs[i := x][..n] == xs[..n][i := x];
    }
  }

  /** The numbers at these indices, and 0 elsewhere. */
  function Masked(xs: seq<nat>, ids: set<nat>): seq<nat> {
    seq(|xs|, i requires 0 <= i < |xs| => if i in ids then xs[i] else 0)
  }

  lemma {:induction false} SumZeros(xs: seq<nat>)
    requires forall i :: 0 <= i < |xs| ==> xs[i] == 0
    ensures Sum(xs) == 0
  {
    if xs != [] {
      SumZeros(xs[..|xs| - 1]);
    }
  }

  lemma SumAtLeast(xs: seq<nat>, i: nat)
    requires i < |xs|
    ensures xs[i] <= Sum(xs)
  {
    SumUpdate(xs, i, 0);
  }

  /** Moving one index out of a mask takes its number out of the sum. */
  lemma MaskOut(xs: seq<nat>, ids: set<nat>, i: nat)
    requires i in ids && i < |xs|
    ensures Sum(Masked(xs, ids)) == xs[i] + Sum(Masked(xs, ids - {i}))
  {
    SumUpdate(Masked(xs, ids), i, 0);
    assert Masked(xs, ids)[i := 0] == Masked(xs, ids - {i});
  }

  lemma MaskIn(xs: seq<nat>, ids: set<nat>, i: nat)
    requires i !in ids && i < |xs|
    ensures Sum(Masked(xs, ids + {i})) == Sum(Masked(xs, ids)) + xs[i]
  {
    MaskOut(xs, ids + {i}, i);
    assert ids + {i} - {i} == ids;
  }

  // ---------------------------------------------------------------- the live table

  /** A site as the config gives it: `root` is absent, unusable, or a readable tree. */
  datatype Root = NoRoot | Unusable | Tree(listing: Listing)
  datatype SiteSpec = SiteSpec(hosts: seq<string>, root: Root, policy: Policy, storage: Storage, errors: ErrorPages)

  /** A site's cache: the table, and the snapshot that its disk entries point into. */
  datatype SiteCache = SiteCache(table: Cache, files: Files)

  /** The live table: one cache per site, whatever its aliases; `errors` is the server's own set of pages. */
  datatype Live = Live(hosts: map<string, nat>, specs: seq<SiteSpec>, caches: seq<SiteCache>, errors: ErrorPages)

  function ErrorSizes(specs: seq<SiteSpec>): seq<nat> {
    seq(|specs|, i requires 0 <= i < |specs| => specs[i].errors.RetainedBytes())
  }

  ghost function CacheSizes(caches: seq<SiteCache>): seq<nat> {
    seq(|caches|, i requires 0 <= i < |caches| => CacheBytes(caches[i].table))
  }

  /** Every byte the runtime retains: the error pages and the distinct site caches. */
  ghost function Resident(v: Live): nat {
    v.errors.RetainedBytes() + Sum(ErrorSizes(v.specs)) + Sum(CacheSizes(v.caches))
  }

  ghost predicate SpecsOk(specs: seq<SiteSpec>, budget: nat) {
    forall i :: 0 <= i < |specs| ==> SpecOk(specs[i], budget)
  }

  ghost predicate SpecOk(spec: SiteSpec, budget: nat) {
    spec.policy.t.maxTotalBytes == budget && spec.hosts != [] && ListingOfOk(spec.root)
  }

  ghost predicate ListingOfOk(root: Root) {
    root.Tree? ==> ListingOk(root.listing)
  }

  /** Every name leads to a site, and every site has a name. */
  ghost predicate HostsOk(v: Live) {
    && (forall h :: h in v.hosts ==> v.hosts[h] < |v.specs|)
    && forall i :: 0 <= i < |v.specs| ==> Named(v, i)
  }

  ghost predicate Named(v: Live, i: nat) {
    exists h :: h in v.hosts && v.hosts[h] == i
  }

  /** A live table under this budget: a site without a tree has nothing cached. */
  ghost predicate LiveOk(v: Live, budget: nat) {
    && |v.caches| == |v.specs| && SpecsOk(v.specs, budget) && HostsOk(v)
    && (forall i :: 0 <= i < |v.specs| && v.specs[i].root.NoRoot? ==> v.caches[i].table == map[])
  }

  predicate InMemory(specs: seq<SiteSpec>) {
    forall i :: 0 <= i < |specs| ==> specs[i].storage == Memory
  }

  // ---------------------------------------------------------------- one site

  /** One site's cache and the total after it. */
  function BuiltSite(spec: SiteSpec, total: nat): Option<Built> {
    match spec.root
    case Unusable => None
    case NoRoot => Some(StartBuild(total))
    case Tree(listing) => WalkListing(listing, "", StartBuild(total), spec.policy, spec.storage)
  }

  /** What a build of one site holds when it stops, whether it succeeds or not. */
  function StoppedSite(spec: SiteSpec, total: nat): Built {
    if spec.root.Tree? then StopListing(spec.root.listing, "", StartBuild(total), spec.policy, spec.storage) else StartBuild(total)
  }

  /** A site that builds is charged exactly its own bytes, and in memory mode stays within the budget. */
  lemma BuiltSiteFits(spec: SiteSpec, total: nat)
    requires ListingOfOk(spec.root) && total <= spec.policy.t.maxTotalBytes && BuiltSite(spec, total).Some?
    ensures var b := BuiltSite(spec, total).value;
            && b.total == total + CacheBytes(b.table)
            && (spec.storage == Memory ==> b.total <= spec.policy.t.maxTotalBytes)
            && (spec.root.NoRoot? ==> b.table == map[])
  {
    if spec.root.Tree? {
      ListingExact(spec.root.listing, "", StartBuild(total), spec.policy, spec.storage);
      if spec.storage == Memory {
        WalkFits(spec.root.listing, "", StartBuild(total), spec.policy);
      }
    }
  }

  method BuildSite(spec: SiteSpec, total: nat) returns (r: Option<Built>, ghost stopped: Built)
    ensures r == BuiltSite(spec, total) && stopped == StoppedSite(spec, total)
  {
    stopped := StartBuild(total);
    match spec.root {
      case Unusable => r := None;
      case NoRoot => r := Some(StartBuild(total));
      case Tree(listing) =>
        var b := new Builder(total, spec.policy, spec.storage);
        var ok := b.Walk(listing, "");
        stopped := b.Value();
        r := if ok then Some(b.Value()) else None;
    }
  }

  /** The table of names after a site registered its own; a name taken twice is an error. */
  function HostsAdded(hosts: map<string, nat>, names: seq<string>, id: nat): Option<map<string, nat>>
    decreases names
  {
    if names == [] then Some(hosts)
    else if names[0] in hosts then None
    else HostsAdded(hosts[names[0] := id], names[1..], id)
  }

  method AddHosts(hosts: map<string, nat>, names: seq<string>, id: nat) returns (r: Option<map<string, nat>>)
    ensures r == HostsAdded(hosts, names, id)
  {
    var out: map<string, nat> := hosts;
    assert names[0..] == names;
    for i := 0 to |names|
      invariant HostsAdded(hosts, names, id) == HostsAdded(out, names[i..], id)
    {
      assert names[i..][0] == names[i] && names[i..][1..] == names[i + 1..];
      if names[i] in out {
        return None;
      }
      out := out[names[i] := id];
    }
    return Some(out);
  }

  lemma {:induction false} HostsAddedMeans(hosts: map<string, nat>, names: seq<string>, id: nat)
    requires HostsAdded(hosts, names, id).Some?
    ensures var r := HostsAdded(hosts, names, id).value;
            && (forall h :: h in hosts ==> h in r && r[h] == hosts[h] && h !in names)
            && (forall h :: h in names ==> h in r && r[h] == id)
            && (forall h :: h in r ==> h in hosts || h in names)
    decreases names
  {
    if names != [] {
      HostsAddedMeans(hosts[names[0] := id], names[1..], id);
      assert forall h :: h in names <==> h == names[0] || h in names[1..];
    }
  }

  // ---------------------------------------------------------------- boot

  /** The table that boots from these sites: each is charged to the one total, in file order. */
  ghost function Booted(specs: seq<SiteSpec>, errors: ErrorPages): Option<Live> {
    if specs == [] then Some(Live(map[], [], [], errors))
    else
      var n := |specs| - 1;
      match Booted(specs[..n], errors)
      case None => None
      case Some(v) => OneMore(v, specs[n])
  }

  ghost function OneMore(v: Live, spec: SiteSpec): Option<Live> {
    var total := Resident(v) + spec.errors.RetainedBytes();
    if total > spec.policy.t.maxTotalBytes then None
    else match BuiltSite(spec, total)
      case None => None
      case Some(b) =>
        match HostsAdded(v.hosts, spec.hosts, |v.specs|)
        case None => None
        case Some(hosts) => Some(Joined(v, spec, hosts, SiteCache(b.table, b.files)))
  }

  function Joined(v: Live, spec: SiteSpec, hosts: map<string, nat>, cache: SiteCache): Live {
    Live(hosts, v.specs + [spec], v.caches + [cache], v.errors)
  }

  lemma JoinedResident(v: Live, spec: SiteSpec, hosts: map<string, nat>, cache: SiteCache)
    ensures Resident(Joined(v, spec, hosts, cache)) == Resident(v) + spec.errors.RetainedBytes() + CacheBytes(cache.table)
  {
    SumSnoc(ErrorSizes(v.specs), spec.errors.RetainedBytes());
    SumSnoc(CacheSizes(v.caches), CacheBytes(cache.table));
    assert ErrorSizes(v.specs + [spec]) == ErrorSizes(v.specs) + [spec.errors.RetainedBytes()];
    assert CacheSizes(v.caches + [cache]) == CacheSizes(v.caches) + [CacheBytes(cache.table)];
  }

  lemma JoinedHosts(v: Live, spec: SiteSpec, hosts: map<string, nat>, v': Live)
    requires HostsOk(v) && spec.hosts != [] && HostsAdded(v.hosts, spec.hosts, |v.specs|) == Some(hosts)
    requires v'.hosts == hosts && v'.specs == v.specs + [spec]
    ensures HostsOk(v')
  {
    HostsAddedMeans(v.hosts, spec.hosts, |v.specs|);
    forall i | 0 <= i < |v'.specs| ensures Named(v', i) {
      if i < |v.specs| {
        assert Named(v, i);
        var h :| h in v.hosts && v.hosts[h] == i;
        assert h in hosts && hosts[h] == i;
      } else {
        assert spec.hosts[0] in hosts && hosts[spec.hosts[0]] == i;
      }
    }
  }

  lemma JoinedOk(v: Live, spec: SiteSpec, hosts: map<string, nat>, cache: SiteCache, budget: nat)
    requires LiveOk(v, budget) && SpecOk(spec, budget) && HostsAdded(v.hosts, spec.hosts, |v.specs|) == Some(hosts)
    requires spec.root.NoRoot? ==> cache.table == map[]
    ensures LiveOk(Joined(v, spec, hosts, cache), budget)
  {
    var v' := Joined(v, spec, hosts, cache);
    JoinedHosts(v, spec, hosts, v');
    assert forall i :: 0 <= i < |v.specs| ==> SpecOk(v.specs[i], budget) && v'.specs[i] == v.specs[i];
  }

  lemma OneMoreFits(v: Live, spec: SiteSpec, budget: nat)
    requires LiveOk(v, budget) && SpecOk(spec, budget) && OneMore(v, spec).Some?
    ensures var v' := OneMore(v, spec).value;
            var total := Resident(v) + spec.errors.RetainedBytes();
            && LiveOk(v', budget) && Resident(v') == BuiltSite(spec, total).value.total
            && (spec.storage == Memory ==> Resident(v') <= budget)
  {
    var total := Resident(v) + spec.errors.RetainedBytes();
    var b := BuiltSite(spec, total).value;
    var hosts := HostsAdded(v.hosts, spec.hosts, |v.specs|).value;
    BuiltSiteFits(spec, total);
    JoinedResident(v, spec, hosts, SiteCache(b.table, b.files));
    JoinedOk(v, spec, hosts, SiteCache(b.table, b.files), budget);
  }

  /** A table that boots in memory storage retains at most the budget that all its sites share. */
  lemma {:induction false} BootFits(specs: seq<SiteSpec>, errors: ErrorPages, budget: nat)
    requires SpecsOk(specs, budget) && Booted(specs, errors).Some?
    ensures var v := Booted(specs, errors).value;
            LiveOk(v, budget) && v.specs == specs && (specs != [] && InMemory(specs) ==> Resident(v) <= budget)
    decreases |specs|
  {
    if specs != [] {
      var init, last := specs[..|specs| - 1], specs[|specs| - 1];
      assert SpecOk(last, budget) && specs == init + [last];
      BootFits(init, errors, budget);
      OneMoreFits(Booted(init, errors).value, last, budget);
    }
  }

  lemma {:induction false} BootFailsEarly(specs: seq<SiteSpec>, errors: ErrorPages, i: nat)
    requires i <= |specs| && Booted(specs[..i], errors).None?
    ensures Booted(specs, errors).None?
    decreases |specs|
  {
    if i < |specs| {
      assert specs[..|specs| - 1][..i] == specs[..i];
      BootFailsEarly(specs[..|specs| - 1], errors, i);
    } else {
      assert specs[..i] == specs;
    }
  }

  /** Charge, build and register one more site. */
  method BuildOne(v: Live, spec: SiteSpec, before: nat, ghost budget: nat) returns (r: Option<Live>, total: nat)
    requires LiveOk(v, budget) && SpecOk(spec, budget) && before == Resident(v)
    ensures r == OneMore(v, spec)
    ensures r.Some? ==> total == Resident(r.value) && LiveOk(r.value, budget)
  {
    total := before + spec.errors.RetainedBytes();
    if total > spec.policy.t.maxTotalBytes {
      return None, total;
    }
    var built;
    ghost var stopped;
    built, stopped := BuildSite(spec, total);
    if built.None? {
      return None, total;
    }
    var hosts := AddHosts(v.hosts, spec.hosts, |v.specs|);
    if hosts.None? {
      return None, total;
    }
    r := Some(Joined(v, spec, hosts.value, SiteCache(built.value.table, built.value.files)));
    assert r == OneMore(v, spec);
    OneMoreFits(v, spec, budget);
    total := built.value.total;
  }

  lemma BootSnoc(specs: seq<SiteSpec>, errors: ErrorPages, i: nat)
    requires i < |specs| && Booted(specs[..i], errors).Some?
    ensures Booted(specs[..i + 1], errors) == OneMore(Booted(specs[..i], errors).value, specs[i])
  {
    assert specs[..i + 1][..i] == specs[..i];
  }

  /** Load every site against one running total. */
  method BuildVhosts(specs: seq<SiteSpec>, errors: ErrorPages, ghost budget: nat) returns (r: Option<Live>, total: nat)
    requires SpecsOk(specs, budget)
    ensures r == Booted(specs, errors)
    ensures r.Some? ==> total == Resident(r.value)
  {
    total := errors.RetainedBytes();
    var v := Live(map[], [], [], errors);
    assert specs[..0] == [];
    for i := 0 to |specs|
      invariant Booted(specs[..i], errors) == Some(v) && LiveOk(v, budget)
      invariant total == Resident(v)
    {
      BootSnoc(specs, errors, i);
      assert SpecOk(specs[i], budget);
      var next;
      next, total := BuildOne(v, specs[i], total, budget);
      if next.None? {
        BootFailsEarly(specs, errors, i + 1);
        return None, total;
      }
      v := next.value;
    }
    assert specs[..|specs|] == specs;
    return Some(v), total;
  }

  // ---------------------------------------------------------------- measuring the live table

  /** The retained bytes of one cache, summed entry by entry. */
  method MeasureCache(m: Cache) returns (n: nat)
    ensures n == CacheBytes(m)
  {
    n := 0;
    var left := m;
    while left != map[]
      invariant n + CacheBytes(left) == CacheBytes(m)
      decreases |left|
    {
      var k :| k in left;
      CacheBytesRemove(left, k);
      n := n + RetainedBytes(left[k]);
      left := left - {k};
    }
  }

  lemma AllMasked(xs: seq<nat>, ids: set<nat>)
    requires forall i :: 0 <= i < |xs| ==> i in ids
    ensures Masked(xs, ids) == xs
  {
  }

  /**
   The error pages of the live table, found through the names: several names may share a site, which
   is counted once, and the names come in no particular order.
   */
  method ErrorPageBytes(v: Live) returns (n: nat)
    requires HostsOk(v)
    ensures n == v.errors.RetainedBytes() + Sum(ErrorSizes(v.specs))
  {
    ghost var sizes := ErrorSizes(v.specs);
    var seen: set<nat> := {};
    var perSite, left := 0, v.hosts.Keys;
    SumZeros(Masked(sizes, {}));
    while left != {}
      invariant left <= v.hosts.Keys
      invariant forall h :: h in v.hosts && h !in left ==> v.hosts[h] in seen
      invariant perSite == Sum(Masked(sizes, seen))
      decreases |left|
    {
      var h :| h in left;
      var id := v.hosts[h];
      if id !in seen {
        MaskIn(sizes, seen, id);
        perSite := perSite + v.specs[id].errors.RetainedBytes();
        seen := seen + {id};
      }
      left := left - {h};
    }
    forall i | 0 <= i < |sizes| ensures i in seen {
      assert Named(v, i);
    }
    AllMasked(sizes, seen);
    return v.errors.RetainedBytes() + perSite;
  }

  /** The distinct sites with a tree, found through the names. */
  method Targets(v: Live) returns (ids: set<nat>)
    requires HostsOk(v)
    ensures forall i :: i in ids ==> i < |v.specs|
    ensures forall i :: 0 <= i < |v.specs| ==> (i in ids <==> !v.specs[i].root.NoRoot?)
  {
    ids := {};
    var left := v.hosts.Keys;
    while left != {}
      invariant left <= v.hosts.Keys
      invariant forall h :: h in v.hosts && h !in left && !v.specs[v.hosts[h]].root.NoRoot? ==> v.hosts[h] in ids
      invariant forall i :: i in ids ==> i < |v.specs| && !v.specs[i].root.NoRoot?
      decreases |left|
    {
      var h :| h in left;
      if !v.specs[v.hosts[h]].root.NoRoot? {
        ids := ids + {v.hosts[h]};
      }
      left := left - {h};
    }
    forall i | 0 <= i < |v.specs| && !v.specs[i].root.NoRoot? ensures i in ids {
      assert Named(v, i);
    }
  }

  /** Everything but site `i`'s own cache. */
  ghost function Others(v: Live, i: nat): nat
    requires i < |v.caches|
  {
    v.errors.RetainedBytes() + Sum(ErrorSizes(v.specs)) + Sum(CacheSizes(v.caches)[i := 0])
  }

  /** What a rebuild of site `i` starts from: the other distinct rooted sites' caches and all error pages. */
  method SeedTotal(v: Live, i: nat, ghost budget: nat) returns (total: nat)
    requires LiveOk(v, budget) && i < |v.caches|
    ensures total == Others(v, i)
  {
    ghost var sizes := CacheSizes(v.caches);
    var targets := Targets(v);
    var left := targets - {i};
    var caches := 0;
    while left != {}
      invariant left <= targets - {i}
      invariant caches + Sum(Masked(sizes, left)) == Sum(Masked(sizes, targets - {i}))
      decreases |left|
    {
      var j :| j in left;
      MaskOut(sizes, left, j);
      var n := MeasureCache(v.caches[j].table);
      caches := caches + n;
      left := left - {j};
    }
    SumZeros(Masked(sizes, {}));
    assert Masked(sizes, targets - {i}) == sizes[i := 0];
    var errors := ErrorPageBytes(v);
    total := caches + errors;
  }

  // ---------------------------------------------------------------- hot reload of one site

  /** The table after a content change of site `i`: its new cache, or the old one if the build fails. */
  ghost function Reloaded(v: Live, i: nat, root: Root): Live
    requires i < |v.caches| == |v.specs|
  {
    match BuiltSite(v.specs[i].(root := root), Others(v, i))
    case None => v
    case Some(b) => v.(caches := v.caches[i := SiteCache(b.table, b.files)])
  }

  lemma SwappedResident(v: Live, i: nat, cache: SiteCache)
    requires i < |v.caches|
    ensures Resident(v.(caches := v.caches[i := cache])) == Others(v, i) + CacheBytes(cache.table)
    ensures Resident(v) == Others(v, i) + CacheBytes(v.caches[i].table)
  {
    var sizes: seq<nat> := CacheSizes(v.caches);
    SumUpdate(sizes[i := 0], i, CacheBytes(cache.table));
    SumUpdate(sizes[i := 0], i, sizes[i]);
    assert sizes[i := 0][i := CacheBytes(cache.table)] == CacheSizes(v.caches[i := cache]);
    assert sizes[i := 0][i := sizes[i]] == sizes;
  }

  /** A reload in memory mode keeps the runtime within the budget; while both caches are resident, within twice of it. */
  lemma ReloadFits(v: Live, i: nat, root: Root, budget: nat)
    requires LiveOk(v, budget) && i < |v.caches| && !v.specs[i].root.NoRoot? && v.specs[i].storage == Memory
    requires ListingOfOk(root) && Resident(v) <= budget
    ensures LiveOk(Reloaded(v, i, root), budget) && Resident(Reloaded(v, i, root)) <= budget
    ensures Resident(v) + CacheBytes(Reloaded(v, i, root).caches[i].table) <= 2 * budget
  {
    assert SpecOk(v.specs[i], budget);
    var spec := v.specs[i].(root := root);
    SwappedResident(v, i, v.caches[i]);
    if BuiltSite(spec, Others(v, i)).Some? {
      var b := BuiltSite(spec, Others(v, i)).value;
      BuiltSiteFits(spec, Others(v, i));
      SwappedResident(v, i, SiteCache(b.table, b.files));
      SwapKeepsHosts(v, Reloaded(v, i, root));
    }
  }

  /**
   While a rebuild is under way, in memory mode, the whole runtime and what the build has retained so
   far stay within twice the budget, whether the build completes, or the budget or an unreadable
   directory stops it.
   */
  lemma RebuildPeak(v: Live, i: nat, root: Root, budget: nat)
    requires LiveOk(v, budget) && i < |v.caches| && v.specs[i].storage == Memory && Resident(v) <= budget
    ensures var stopped := StoppedSite(v.specs[i].(root := root), Others(v, i));
            && Others(v, i) + CacheBytes(stopped.table) <= budget
            && Resident(v) + CacheBytes(stopped.table) <= 2 * budget
  {
    assert SpecOk(v.specs[i], budget);
    SwappedResident(v, i, v.caches[i]);
    if root.Tree? {
      StopFits(root.listing, "", StartBuild(Others(v, i)), v.specs[i].policy);
    }
  }

  lemma SwapKeepsHosts(v: Live, v': Live)
    requires HostsOk(v) && v'.hosts == v.hosts && v'.specs == v.specs
    ensures HostsOk(v')
  {
    forall i | 0 <= i < |v'.specs| ensures Named(v', i) {
      assert Named(v, i);
    }
  }

  method ReloadSite(v: Live, i: nat, root: Root, ghost budget: nat) returns (v': Live, ghost stopped: Built)
    requires LiveOk(v, budget) && i < |v.caches|
    ensures v' == Reloaded(v, i, root) && stopped == StoppedSite(v.specs[i].(root := root), Others(v, i))
  {
    var total := SeedTotal(v, i, budget);
    var built;
    built, stopped := BuildSite(v.specs[i].(root := root), total);
    match built {
      case None => v' := v;
      case Some(b) => v' := v.(caches := v.caches[i := SiteCache(b.table, b.files)]);
    }
  }

  /** A content change of one site, as the watcher picked it up. */
  datatype Change = Change(site: nat, root: Root)

  ghost predicate ChangesOk(v: Live, changes: seq<Change>) {
    forall k :: 0 <= k < |changes| ==> ChangeOk(v, changes[k])
  }

  ghost predicate ChangeOk(v: Live, c: Change) {
    c.site < |v.specs| && !v.specs[c.site].root.NoRoot? && v.specs[c.site].storage == Memory && ListingOfOk(c.root)
  }

  ghost function ReloadedAll(v: Live, changes: seq<Change>): Live
    requires |v.caches| == |v.specs| && ChangesOk(v, changes)
    decreases changes
  {
    if changes == [] then v
    else
      assert ChangeOk(v, changes[0]);
      var v' := Reloaded(v, changes[0].site, changes[0].root);
      assert forall k :: 0 <= k < |changes[1..]| ==> ChangeOk(v, changes[1..][k]);
      ReloadedAll(v', changes[1..])
  }

  /** Any sequence of per-site hot reloads keeps the whole runtime within the budget. */
  lemma {:induction false} ReloadsFit(v: Live, changes: seq<Change>, budget: nat)
    requires LiveOk(v, budget) && Resident(v) <= budget && ChangesOk(v, changes)
    ensures Resident(ReloadedAll(v, changes)) <= budget && LiveOk(ReloadedAll(v, changes), budget)
    decreases changes
  {
    if changes != [] {
      assert ChangeOk(v, changes[0]);
      ReloadFits(v, changes[0].site, changes[0].root, budget);
      assert forall k :: 0 <= k < |changes[1..]| ==> ChangeOk(v, changes[1..][k]);
      ReloadsFit(Reloaded(v, changes[0].site, changes[0].root), changes[1..], budget);
    }
  }
}
