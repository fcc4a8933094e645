/**
 What a tree walk charges to the shared byte budget (`walk`, `cache_bytes`).
 */
module Budget {
  import opened Bytes
  import opened Entries
  import opened Walk

  // ---------------------------------------------------------------- the bytes of a cache

  ghost function CacheBytes(m: Cache): nat {
    if m == map[] then 0
    else
      var k :| k in m;
      RetainedBytes(m[k]) + CacheBytes(m - {k})
  }

  lemma {:induction false} CacheBytesRemove(m: Cache, k: string)
    requires k in m
    ensures CacheBytes(m) == RetainedBytes(m[k]) + CacheBytes(m - {k})
    decreases |m|
  {
    var j :| j in m && CacheBytes(m) == RetainedBytes(m[j]) + CacheBytes(m - {j});
    if j != k {
      CacheBytesRemove(m - {j}, k);
      CacheBytesRemove(m - {k}, j);
      assert (m - {j}) - {k} == (m - {k}) - {j};
    }
  }

  lemma CacheBytesUpdate(m: Cache, k: string, v: Cached)
    ensures CacheBytes(m[k := v]) == CacheBytes(m - {k}) + RetainedBytes(v)
    ensures CacheBytes(m[k := v]) <= CacheBytes(m) + RetainedBytes(v)
    ensures k !in m ==> CacheBytes(m[k := v]) == CacheBytes(m) + RetainedBytes(v)
  {
    CacheBytesRemove(m[k := v], k);
    assert m[k := v] - {k} == m - {k};
    if k in m {
      CacheBytesRemove(m, k);
    } else {
      assert m - {k} == m;
    }
  }

  // ---------------------------------------------------------------- what a walk charges

  /** The total never misses a retained byte: it grows by at least what the table grows by. */
  ghost predicate Charged(before: Built, after: Built) {
    after.total + CacheBytes(before.table) >= before.total + CacheBytes(after.table)
  }

  lemma AddCharges(b: Built, url: string, data: string, p: Policy, s: Storage)
    requires AddFile(b, url, data, p, s).Some?
    ensures Charged(b, AddFile(b, url, data, p, s).value)
    ensures url !in b.table ==> ChargedExactly(b, AddFile(b, url, data, p, s).value)
  {
    CacheBytesUpdate(b.table, url, EntryOf(url, data, p, s));
  }

  lemma {:induction false} WalkCharges(l: Listing, prefix: string, b: Built, p: Policy, s: Storage)
    requires WalkListing(l, prefix, b, p, s).Some?
    ensures Charged(b, WalkListing(l, prefix, b, p, s).value)
    decreases l
  {
    if l.Entry? {
      if IsHidden(l.name) {
        WalkCharges(l.rest, prefix, b, p, s);
      } else {
        var url := prefix + "/" + l.name;
        match l.node {
          case Dir(Some(listing)) => WalkCharges(listing, url, b, p, s);
          case File(size, Some(data)) =>
            if size <= p.t.maxFileSize {
              AddCharges(b, url, data, p, s);
            }
          case _ =>
        }
        WalkCharges(l.rest, prefix, WalkNode(l.node, url, b, p, s).value, p, s);
      }
    }
  }

  /** In memory mode a walk that completes stays within the budget it was given. */
  lemma {:induction false} WalkFits(l: Listing, prefix: string, b: Built, p: Policy)
    requires WalkListing(l, prefix, b, p, Memory).Some? && b.total <= p.t.maxTotalBytes
    ensures b.total <= WalkListing(l, prefix, b, p, Memory).value.total <= p.t.maxTotalBytes
    decreases l
  {
    if l.Entry? {
      if IsHidden(l.name) {
        WalkFits(l.rest, prefix, b, p);
      } else {
        var url := prefix + "/" + l.name;
        if l.node.Dir? && l.node.listing.Some? {
          WalkFits(l.node.listing.value, url, b, p);
        }
        WalkFits(l.rest, prefix, WalkNode(l.node, url, b, p, Memory).value, p);
      }
    }
  }

  /** A walk that completes stops with its result. */
  lemma {:induction false} StopIsResult(l: Listing, prefix: string, b: Built, p: Policy, s: Storage)
    requires WalkListing(l, prefix, b, p, s).Some?
    ensures StopListing(l, prefix, b, p, s) == WalkListing(l, prefix, b, p, s).value
    decreases l
  {
    if l.Entry? {
      if IsHidden(l.name) {
        StopIsResult(l.rest, prefix, b, p, s);
      } else {
        var url := prefix + "/" + l.name;
        if l.node.Dir? && l.node.listing.Some? {
          StopIsResult(l.node.listing.value, url, b, p, s);
        }
        StopIsResult(l.rest, prefix, WalkNode(l.node, url, b, p, s).value, p, s);
      }
    }
  }

  ghost predicate StopsWithin(b: Built, stop: Built, p: Policy) {
    Charged(b, stop) && b.total <= stop.total <= p.t.maxTotalBytes
  }

  /** In memory mode a walk is within the budget wherever it stops, and its total covers the table it stops with. */
  lemma {:induction false} StopFits(l: Listing, prefix: string, b: Built, p: Policy)
    requires b.total <= p.t.maxTotalBytes
    ensures StopsWithin(b, StopListing(l, prefix, b, p, Memory), p)
    decreases l
  {
    if l.Entry? {
      if IsHidden(l.name) {
        StopFits(l.rest, prefix, b, p);
      } else {
        var url := prefix + "/" + l.name;
        match l.node {
          case Dir(Some(listing)) => StopFits(listing, url, b, p);
          case File(size, Some(data)) =>
            if WalkNode(l.node, url, b, p, Memory).Some? && size <= p.t.maxFileSize {
              AddCharges(b, url, data, p, Memory);
            }
          case _ =>
        }
        var stop := StopNode(l.node, url, b, p, Memory);
        assert StopsWithin(b, stop, p);
        StopFits(l.rest, prefix, stop, p);
      }
    }
  }

  // ---------------------------------------------------------------- exactness: no URL is loaded twice

  ghost predicate ChargedExactly(before: Built, after: Built) {
    after.total + CacheBytes(before.table) == before.total + CacheBytes(after.table)
  }

  /** `url` is `base` or lies in the directory `base`. */
  predicate Under(url: string, base: string) {
    url == base || StartsWith(url, base + "/")
  }

  lemma UnderTransitive(url: string, mid: string, base: string)
    requires Under(url, mid) && Under(mid, base)
    ensures Under(url, base)
  {
    if url != mid && mid != base {
      assert url[..|mid|] == (mid + "/")[..|mid|] == mid;
      assert url[..|base| + 1] == mid[..|base| + 1];
    } else if url != mid {
      assert mid + "/" == base + "/";
    }
  }

  /** Two entries of one directory have nothing in common below them. */
  lemma UnderOne(url: string, prefix: string, a: string, b: string)
    requires NameOk(a) && NameOk(b) && Under(url, prefix + "/" + a) && Under(url, prefix + "/" + b)
    ensures a == b
  {
    var n := |prefix| + 1;
    assert (prefix + "/" + a)[n..] == a && (prefix + "/" + b)[n..] == b;
    NameEnds(url, prefix, a);
    NameEnds(url, prefix, b);
    assert |a| == |b|;
  }

  lemma NameEnds(url: string, prefix: string, a: string)
    requires NameOk(a) && Under(url, prefix + "/" + a)
    ensures var n := |prefix| + 1;
            && |url| >= n + |a| && url[n..n + |a|] == a
            && (|url| == n + |a| || url[n + |a|] == '/')
            && forall i :: n <= i < n + |a| ==> url[i] != '/'
  {
    var base, n := prefix + "/" + a, |prefix| + 1;
    if url != base {
      assert url[..|base| + 1] == base + "/";
    }
    assert url[..|base|] == base;
    assert url[n..n + |a|] == base[n..] == a;
    forall i | n <= i < n + |a| ensures url[i] != '/' {
      assert url[i] == a[i - n];
    }
  }

  /** No key of the table lies under an entry of this listing. */
  ghost predicate Fresh(table: Cache, prefix: string, names: set<string>) {
    forall url, name :: url in table && name in names ==> !Under(url, prefix + "/" + name)
  }

  /** Everything new in the table lies under an entry of this listing. */
  ghost predicate AddsUnder(before: Cache, after: Cache, prefix: string, names: set<string>) {
    forall url :: url in after && url !in before ==> AddedUnder(url, prefix, names)
  }

  ghost predicate AddedUnder(url: string, prefix: string, names: set<string>) {
    exists name :: name in names && Under(url, prefix + "/" + name)
  }

  lemma FreshRest(before: Cache, after: Cache, prefix: string, name: string, names: set<string>)
    requires Fresh(before, prefix, {name} + names) && name !in names && NameOk(name)
    requires forall n :: n in names ==> NameOk(n)
    requires AddsUnder(before, after, prefix, {name})
    ensures Fresh(after, prefix, names)
  {
    forall url, n | url in after && n in names ensures !Under(url, prefix + "/" + n) {
      if url in before {
        assert n in {name} + names;
      } else {
        assert AddedUnder(url, prefix, {name});
        if Under(url, prefix + "/" + n) {
          UnderOne(url, prefix, name, n);
        }
      }
    }
  }

  lemma {:induction false} NamesAreOk(l: Listing)
    requires ListingOk(l)
    ensures forall n :: n in Names(l) ==> NameOk(n)
    decreases l
  {
    if l.Entry? {
      NamesAreOk(l.rest);
    }
  }

  lemma AddsUnderBoth(t0: Cache, t1: Cache, t2: Cache, prefix: string, name: string, names: set<string>)
    requires AddsUnder(t0, t1, prefix, {name}) && AddsUnder(t1, t2, prefix, names)
    ensures AddsUnder(t0, t2, prefix, {name} + names)
  {
    forall url | url in t2 && url !in t0 ensures AddedUnder(url, prefix, {name} + names) {
      if url in t1 {
        assert AddedUnder(url, prefix, {name});
        assert name in {name} + names;
      } else {
        assert AddedUnder(url, prefix, names);
        var n :| n in names && Under(url, prefix + "/" + n);
        assert n in {name} + names;
      }
    }
  }

  lemma AddsUnderMore(t0: Cache, t1: Cache, prefix: string, name: string, names: set<string>)
    requires AddsUnder(t0, t1, prefix, names)
    ensures AddsUnder(t0, t1, prefix, {name} + names)
  {
    forall url | url in t1 && url !in t0 ensures AddedUnder(url, prefix, {name} + names) {
      assert AddedUnder(url, prefix, names);
      var n :| n in names && Under(url, prefix + "/" + n);
      assert n in {name} + names;
    }
  }

  lemma {:induction false} NodeExact(name: string, node: Node, prefix: string, b: Built, p: Policy, s: Storage)
    requires NameOk(name) && NodeOk(node) && Fresh(b.table, prefix, {name})
    requires WalkNode(node, prefix + "/" + name, b, p, s).Some?
    ensures var b' := WalkNode(node, prefix + "/" + name, b, p, s).value;
            ChargedExactly(b, b') && AddsUnder(b.table, b'.table, prefix, {name})
    decreases node
  {
    var url := prefix + "/" + name;
    match node {
      case Dir(Some(listing)) =>
        forall u, n | u in b.table && n in Names(listing) ensures !Under(u, url + "/" + n) {
          if Under(u, url + "/" + n) {
            assert (url + "/" + n)[..|url| + 1] == url + "/";
            UnderTransitive(u, url + "/" + n, url);
          }
        }
        ListingExact(listing, url, b, p, s);
        var b' := WalkListing(listing, url, b, p, s).value;
        forall u | u in b'.table && u !in b.table ensures AddedUnder(u, prefix, {name}) {
          assert AddedUnder(u, url, Names(listing));
          var n :| n in Names(listing) && Under(u, url + "/" + n);
          assert (url + "/" + n)[..|url| + 1] == url + "/";
          UnderTransitive(u, url + "/" + n, url);
          assert name in {name};
        }
      case File(size, Some(data)) =>
        if size <= p.t.maxFileSize {
          assert name in {name} && Under(url, url);
          AddCharges(b, url, data, p, s);
          assert AddedUnder(url, prefix, {name});
        }
      case _ =>
    }
  }

  /** With distinct names in every directory, the total grows by exactly the bytes of the new entries. */
  lemma {:induction false} ListingExact(l: Listing, prefix: string, b: Built, p: Policy, s: Storage)
    requires ListingOk(l) && Fresh(b.table, prefix, Names(l)) && WalkListing(l, prefix, b, p, s).Some?
    ensures var b' := WalkListing(l, prefix, b, p, s).value;
            ChargedExactly(b, b') && AddsUnder(b.table, b'.table, prefix, Names(l))
    decreases l
  {
    if l.Entry? {
      NamesAreOk(l.rest);
      if IsHidden(l.name) {
        ListingExact(l.rest, prefix, b, p, s);
        AddsUnderMore(b.table, WalkListing(l.rest, prefix, b, p, s).value.table, prefix, l.name, Names(l.rest));
      } else {
        NodeExact(l.name, l.node, prefix, b, p, s);
        var b1 := WalkNode(l.node, prefix + "/" + l.name, b, p, s).value;
        FreshRest(b.table, b1.table, prefix, l.name, Names(l.rest));
        ListingExact(l.rest, prefix, b1, p, s);
        AddsUnderBoth(b.table, b1.table, WalkListing(l.rest, prefix, b1, p, s).value.table, prefix, l.name, Names(l.rest));
      }
    }
  }
}
