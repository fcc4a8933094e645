/**
 Building a site's cache from its document tree (`walk`, `build_cache`), in memory and on disk.

 The file system is a tree as one walk of it saw it: the order of a listing is arbitrary, a file
 may be unreadable, and its size may have been read before its content changed.
 */
module Walk {
  import opened Bytes
  import opened Entries

  datatype Node = File(size: nat, content: Option<string>) | Dir(listing: Option<Listing>) | Skipped
  datatype Listing = Nil | Entry(name: string, node: Node, rest: Listing)

  datatype Storage = Memory | OnDisk

  type Cache = map<string, Cached>

  /** What a walk updates in place: the table, the running total and the snapshot files. */
  datatype Built = Built(table: Cache, total: nat, files: Files)

  predicate IsHidden(name: string) {
    StartsWith(name, ".") && name != ".well-known"
  }

  /** Charge and store one file; in memory mode the budget may refuse it. */
  function AddFile(b: Built, url: string, data: string, p: Policy, s: Storage): Option<Built> {
    var cached := if s == Memory then Mem(MakeCached(url, data, p)) else Disk(MakeDisk(url, data, p));
    var stored := RetainedBytes(cached);
    if s == Memory && b.total + stored > p.t.maxTotalBytes then None
    else Some(Built(b.table[url := cached], b.total + stored,
                    if s == Memory then b.files else WriteBodies(b.files, url, data, p)))
  }

  function WalkNode(node: Node, url: string, b: Built, p: Policy, s: Storage): Option<Built>
    decreases node
  {
    match node
    case Skipped => Some(b)
    case Dir(None) => None
    case Dir(Some(listing)) => WalkListing(listing, url, b, p, s)
    case File(size, content) =>
      if size > p.t.maxFileSize then Some(b)
      else if s == Memory && b.total + size > p.t.maxTotalBytes then None
      else match content
        case None => Some(b)
        case Some(data) => AddFile(b, url, data, p, s)
  }

  /** `None` when a directory is unreadable or the budget is exceeded. */
  function WalkListing(l: Listing, prefix: string, b: Built, p: Policy, s: Storage): Option<Built>
    decreases l
  {
    match l
    case Nil => Some(b)
    case Entry(name, node, rest) =>
      if IsHidden(name) then WalkListing(rest, prefix, b, p, s)
      else match WalkNode(node, prefix + "/" + name, b, p, s)
        case None => None
        case Some(b') => WalkListing(rest, prefix, b', p, s)
  }

  /** Where a walk stops, at its end or at the entry that it fails on. */
  function StopNode(node: Node, url: string, b: Built, p: Policy, s: Storage): Built
    decreases node
  {
    match node
    case Dir(Some(listing)) => StopListing(listing, url, b, p, s)
    case _ => if WalkNode(node, url, b, p, s).Some? then WalkNode(node, url, b, p, s).value else b
  }

  function StopListing(l: Listing, prefix: string, b: Built, p: Policy, s: Storage): Built
    decreases l
  {
    match l
    case Nil => b
    case Entry(name, node, rest) =>
      if IsHidden(name) then StopListing(rest, prefix, b, p, s)
      else
        var b' := StopNode(node, prefix + "/" + name, b, p, s);
        if WalkNode(node, prefix + "/" + name, b, p, s).None? then b' else StopListing(rest, prefix, b', p, s)
  }

  /** The builder: the fields that the recursion of `walk` mutates. */
  class Builder {
    var table: Cache
    var total: nat
    var files: Files
    const policy: Policy
    const storage: Storage

    function Value(): Built
      reads this
    {
      Built(table, total, files)
    }

    constructor (total: nat, policy: Policy, storage: Storage)
      ensures Value() == Built(map[], total, map[]) && this.policy == policy && this.storage == storage
    {
      this.table, this.total, this.files := map[], total, map[];
      this.policy, this.storage := policy, storage;
    }

    method Walk(l: Listing, prefix: string) returns (ok: bool)
      modifies this
      ensures ok <==> WalkListing(l, prefix, old(Value()), policy, storage).Some?
      ensures ok ==> WalkListing(l, prefix, old(Value()), policy, storage) == Some(Value())
      ensures Value() == StopListing(l, prefix, old(Value()), policy, storage)
      decreases l
    {
      var it := l;
      while it.Entry?
        invariant it == l || it < l
        invariant WalkListing(l, prefix, old(Value()), policy, storage) == WalkListing(it, prefix, Value(), policy, storage)
        invariant StopListing(l, prefix, old(Value()), policy, storage) == StopListing(it, prefix, Value(), policy, storage)
        decreases it
      {
        if !IsHidden(it.name) {
          var url := prefix + "/" + it.name;
          match it.node {
            case Skipped =>
            case Dir(None) => return false;
            case Dir(Some(listing)) =>
              var inner := Walk(listing, url);
              if !inner {
                return false;
              }
            case File(size, content) =>
              if size <= policy.t.maxFileSize {
                if storage == Memory && total + size > policy.t.maxTotalBytes {
                  return false;
                }
                if content.Some? {
                  var added := Store(url, content.value);
                  if !added {
                    return false;
                  }
                }
              }
          }
        }
        it := it.rest;
      }
      return true;
    }

    method Store(url: string, data: string) returns (ok: bool)
      modifies this
      ensures ok <==> AddFile(old(Value()), url, data, policy, storage).Some?
      ensures ok ==> AddFile(old(Value()), url, data, policy, storage) == Some(Value())
      ensures !ok ==> Value() == old(Value())
    {
      var cached := if storage == Memory then Mem(MakeCached(url, data, policy)) else Disk(MakeDisk(url, data, policy));
      var stored := RetainedBytes(cached);
      if storage == Memory && total + stored > policy.t.maxTotalBytes {
        return false;
      }
      total := total + stored;
      table := table[url := cached];
      if storage == OnDisk {
        files := WriteBodies(files, url, data, policy);
      }
      return true;
    }
  }

  // ---------------------------------------------------------------- names and URLs

  predicate NameOk(name: string) {
    name != "" && '/' !in name
  }

  /** What an operating system guarantees about a listing: plain names, none of them twice. */
  predicate NodeOk(node: Node)
    decreases node
  {
    match node
    case Dir(Some(listing)) => ListingOk(listing)
    case _ => true
  }

  predicate ListingOk(l: Listing)
    decreases l
  {
    l.Entry? ==> NameOk(l.name) && NodeOk(l.node) && ListingOk(l.rest) && l.name !in Names(l.rest)
  }

  function Names(l: Listing): set<string> {
    if l.Nil? then {} else {l.name} + Names(l.rest)
  }

  /** Plain names only; two entries of a directory may still share a (lossily decoded) name. */
  predicate NodePlain(node: Node)
    decreases node
  {
    match node
    case Dir(Some(listing)) => ListingPlain(listing)
    case _ => true
  }

  predicate ListingPlain(l: Listing)
    decreases l
  {
    l.Entry? ==> NameOk(l.name) && NodePlain(l.node) && ListingPlain(l.rest)
  }

  lemma {:induction false} OkIsPlain(l: Listing)
    requires ListingOk(l)
    ensures ListingPlain(l)
    decreases l
  {
    if l.Entry? {
      if l.node.Dir? && l.node.listing.Some? {
        OkIsPlain(l.node.listing.value);
      }
      OkIsPlain(l.rest);
    }
  }

  /** A URL prefix as the walk passes it down: nothing at the root, a WalkUrl below. */
  predicate PrefixOk(prefix: string) {
    prefix == "" || WalkUrl(prefix)
  }

  lemma UrlOk(prefix: string, name: string)
    requires PrefixOk(prefix) && NameOk(name)
    ensures WalkUrl(prefix + "/" + name)
  {
    assert prefix == "" ==> prefix + "/" + name == "/" + name;
  }

  // ---------------------------------------------------------------- the table is exactly the documents

  type Docs = map<string, string>

  /** The documents of a tree by URL: what a walk would load if memory were unbounded. */
  function DocsOfNode(node: Node, url: string, docs: Docs, p: Policy): Docs
    decreases node
  {
    match node
    case Dir(Some(listing)) => DocsOfListing(listing, url, docs, p)
    case File(size, Some(data)) => if size > p.t.maxFileSize then docs else docs[url := data]
    case _ => docs
  }

  function DocsOfListing(l: Listing, prefix: string, docs: Docs, p: Policy): Docs
    decreases l
  {
    match l
    case Nil => docs
    case Entry(name, node, rest) =>
      DocsOfListing(rest, prefix, if IsHidden(name) then docs else DocsOfNode(node, prefix + "/" + name, docs, p), p)
  }

  function EntryOf(url: string, data: string, p: Policy, s: Storage): Cached {
    if s == Memory then Mem(MakeCached(url, data, p)) else Disk(MakeDisk(url, data, p))
  }

  /** The table is the documents, each in this backend's form; on disk every body is still at its path. */
  ghost predicate Indexes(b: Built, docs: Docs, p: Policy, s: Storage) {
    && b.table.Keys == docs.Keys
    && forall url :: url in docs ==> IndexedAs(b, url, docs[url], p, s)
  }

  ghost predicate IndexedAs(b: Built, url: string, data: string, p: Policy, s: Storage)
    requires url in b.table
  {
    WalkUrl(url) && b.table[url] == EntryOf(url, data, p, s) && (s == OnDisk ==> HoldsBodies(b.files, url, data, p))
  }

  lemma IndexedKept(b: Built, url: string, data: string, p: Policy, s: Storage, other: string, otherData: string)
    requires WalkUrl(url) && AddFile(b, url, data, p, s).Some?
    requires other != url && other in b.table && IndexedAs(b, other, otherData, p, s)
    ensures IndexedAs(AddFile(b, url, data, p, s).value, other, otherData, p, s)
  {
    if s == OnDisk {
      WriteBodiesKeeps(b.files, url, data, p, other, otherData);
    }
  }

  lemma AddedKeys(b: Built, url: string, data: string, p: Policy, s: Storage)
    requires AddFile(b, url, data, p, s).Some?
    ensures AddFile(b, url, data, p, s).value.table.Keys == b.table.Keys + {url}
  {
  }

  lemma IndexedAfterAdd(b: Built, docs: Docs, url: string, data: string, p: Policy, s: Storage, u: string)
    requires Indexes(b, docs, p, s) && WalkUrl(url) && AddFile(b, url, data, p, s).Some? && (u in docs || u == url)
    ensures u in AddFile(b, url, data, p, s).value.table
    ensures IndexedAs(AddFile(b, url, data, p, s).value, u, docs[url := data][u], p, s)
  {
    if u == url {
      WriteBodiesHolds(b.files, url, data, p);
    } else {
      IndexedKept(b, url, data, p, s, u, docs[u]);
    }
  }

  lemma AllIndexedAfterAdd(b: Built, docs: Docs, url: string, data: string, p: Policy, s: Storage, b': Built, docs': Docs)
    requires Indexes(b, docs, p, s) && WalkUrl(url) && AddFile(b, url, data, p, s) == Some(b')
    requires docs' == docs[url := data] && b'.table.Keys == docs'.Keys
    ensures Indexes(b', docs', p, s)
  {
    forall u | u in docs' ensures IndexedAs(b', u, docs'[u], p, s) {
      IndexedAfterAdd(b, docs, url, data, p, s, u);
    }
  }

  lemma AddIndexes(b: Built, docs: Docs, url: string, data: string, p: Policy, s: Storage)
    requires Indexes(b, docs, p, s) && WalkUrl(url) && AddFile(b, url, data, p, s).Some?
    ensures Indexes(AddFile(b, url, data, p, s).value, docs[url := data], p, s)
  {
    AddedKeys(b, url, data, p, s);
    AllIndexedAfterAdd(b, docs, url, data, p, s, AddFile(b, url, data, p, s).value, docs[url := data]);
  }

  lemma {:induction false} NodeIndexes(node: Node, url: string, b: Built, docs: Docs, p: Policy, s: Storage)
    requires NodePlain(node) && WalkUrl(url) && Indexes(b, docs, p, s) && WalkNode(node, url, b, p, s).Some?
    ensures Indexes(WalkNode(node, url, b, p, s).value, DocsOfNode(node, url, docs, p), p, s)
    decreases node
  {
    match node {
      case Dir(Some(listing)) => ListingIndexes(listing, url, b, docs, p, s);
      case File(size, Some(data)) =>
        if size <= p.t.maxFileSize {
          AddIndexes(b, docs, url, data, p, s);
        }
      case _ =>
    }
  }

  /** After a walk, in either backend, the table and the snapshot are exactly the documents of the tree. */
  lemma {:induction false} ListingIndexes(l: Listing, prefix: string, b: Built, docs: Docs, p: Policy, s: Storage)
    requires ListingPlain(l) && PrefixOk(prefix) && Indexes(b, docs, p, s) && WalkListing(l, prefix, b, p, s).Some?
    ensures Indexes(WalkListing(l, prefix, b, p, s).value, DocsOfListing(l, prefix, docs, p), p, s)
    decreases l
  {
    if l.Entry? {
      if IsHidden(l.name) {
        ListingIndexes(l.rest, prefix, b, docs, p, s);
      } else {
        var url := prefix + "/" + l.name;
        UrlOk(prefix, l.name);
        NodeIndexes(l.node, url, b, docs, p, s);
        ListingIndexes(l.rest, prefix, WalkNode(l.node, url, b, p, s).value, DocsOfNode(l.node, url, docs, p), p, s);
      }
    }
  }

  /** A build that memory mode completes is completed on disk too: only the budget can tell them apart. */
  lemma {:induction false} DiskNeverRefusesMore(l: Listing, prefix: string, m: Built, d: Built, p: Policy)
    requires WalkListing(l, prefix, m, p, Memory).Some?
    ensures WalkListing(l, prefix, d, p, OnDisk).Some?
    decreases l
  {
    if l.Entry? {
      if IsHidden(l.name) {
        DiskNeverRefusesMore(l.rest, prefix, m, d, p);
      } else {
        var url := prefix + "/" + l.name;
        if l.node.Dir? && l.node.listing.Some? {
          DiskNeverRefusesMore(l.node.listing.value, url, m, d, p);
        }
        DiskNeverRefusesMore(l.rest, prefix, WalkNode(l.node, url, m, p, Memory).value, WalkNode(l.node, url, d, p, OnDisk).value, p);
      }
    }
  }

  function StartBuild(total: nat): Built {
    Built(map[], total, map[])
  }

  /**
   Storage is invisible: a tree that fits the memory budget builds under either backend, both
   know the same URLs, and every request for one of them gets the same bytes and the same
   connection state.
   */
  lemma StorageIsInvisible(l: Listing, p: Policy, memTotal: nat, diskTotal: nat)
    requires ListingPlain(l) && WalkListing(l, "", StartBuild(memTotal), p, Memory).Some?
    ensures WalkListing(l, "", StartBuild(diskTotal), p, OnDisk).Some?
    ensures var m := WalkListing(l, "", StartBuild(memTotal), p, Memory).value;
            var d := WalkListing(l, "", StartBuild(diskTotal), p, OnDisk).value;
            m.table.Keys == d.table.Keys &&
            forall url, ask :: url in m.table ==> ServesAlike(m, d, url, ask, p)
  {
    DiskNeverRefusesMore(l, "", StartBuild(memTotal), StartBuild(diskTotal), p);
    var m := WalkListing(l, "", StartBuild(memTotal), p, Memory).value;
    var d := WalkListing(l, "", StartBuild(diskTotal), p, OnDisk).value;
    var docs := DocsOfListing(l, "", map[], p);
    ListingIndexes(l, "", StartBuild(memTotal), map[], p, Memory);
    ListingIndexes(l, "", StartBuild(diskTotal), map[], p, OnDisk);
    forall url, ask | url in m.table ensures ServesAlike(m, d, url, ask, p) {
      assert IndexedAs(m, url, docs[url], p, Memory) && IndexedAs(d, url, docs[url], p, OnDisk);
      MakeSame(url, docs[url], p, d.files);
      SameEntryServesAlike(m.table[url].m, d.table[url].d, d.files, ask, p.security);
    }
  }

  ghost predicate ServesAlike(m: Built, d: Built, url: string, ask: Ask, p: Policy) {
    && url in m.table && m.table[url].Mem? && url in d.table && d.table[url].Disk?
    && WholeHeaders(m.table[url].m)
    && ServeMem(m.table[url].m, ask, p.security) == ServeDisk(d.table[url].d, d.files, ask, p.security)
  }

  // ---------------------------------------------------------------- the shape of the keys

  /** No empty segment, no trailing slash, and no hidden segment but `.well-known`. */
  ghost predicate DocKey(url: string) {
    && WalkUrl(url) && url[|url| - 1] != '/'
    && forall i :: 0 <= i < |url| && url[i] == '/' ==>
         i + 1 < |url| && url[i + 1] != '/' && (url[i + 1] == '.' ==> StartsWith(url[i + 1..], ".well-known"))
  }

  lemma DocKeyExtend(prefix: string, name: string)
    requires (prefix == "" || DocKey(prefix)) && NameOk(name) && !IsHidden(name)
    ensures DocKey(prefix + "/" + name)
  {
    var url := prefix + "/" + name;
    UrlOk(prefix, name);
    forall i | 0 <= i < |url| && url[i] == '/'
      ensures i + 1 < |url| && url[i + 1] != '/' && (url[i + 1] == '.' ==> StartsWith(url[i + 1..], ".well-known"))
    {
      if i < |prefix| {
        assert prefix[i] == '/' && prefix[i + 1] == url[i + 1];
        if url[i + 1] == '.' {
          assert url[i + 1..][..11] == prefix[i + 1..][..11];
        }
      } else {
        assert url[|prefix| + 1..] == name;
        assert i == |prefix|;
        assert name[0] == '.' ==> name[..1] == ".";
      }
    }
  }

  ghost predicate DocKeys(docs: Docs) {
    forall url :: url in docs ==> DocKey(url)
  }

  lemma {:induction false} NodeDocKeys(node: Node, url: string, docs: Docs, p: Policy)
    requires NodePlain(node) && DocKey(url) && DocKeys(docs)
    ensures DocKeys(DocsOfNode(node, url, docs, p))
    decreases node
  {
    if node.Dir? && node.listing.Some? {
      ListingDocKeys(node.listing.value, url, docs, p);
    }
  }

  /** Every key of a built table is a plain, visible path. */
  lemma {:induction false} ListingDocKeys(l: Listing, prefix: string, docs: Docs, p: Policy)
    requires ListingPlain(l) && (prefix == "" || DocKey(prefix)) && DocKeys(docs)
    ensures DocKeys(DocsOfListing(l, prefix, docs, p))
    decreases l
  {
    if l.Entry? {
      if IsHidden(l.name) {
        ListingDocKeys(l.rest, prefix, docs, p);
      } else {
        DocKeyExtend(prefix, l.name);
        NodeDocKeys(l.node, prefix + "/" + l.name, docs, p);
        ListingDocKeys(l.rest, prefix, DocsOfNode(l.node, prefix + "/" + l.name, docs, p), p);
      }
    }
  }
}
