/**
 Cache entries in both storage backends, and serving them (`make_cached`, `make_disk_entry`,
 `serve_mem`, `serve_disk`, `stream_body`).

 The compressors, the content hash and the MIME table are parameters of the policy.
 */
module Entries {
  import opened Bytes
  import opened Responses
  import opened Printers
  import opened RequestHead

  datatype Tuning = Tuning(
    compression: bool, brotliQuality: nat, gzipLevel: nat, minCompressBytes: nat, maxBrotliBytes: nat,
    maxGzipBytes: nat, maxFileSize: nat, maxTotalBytes: nat, cacheMaxAge: nat, immutableMaxAge: nat)

  /** Deterministic functions the server calls into: compressors, content hash, MIME table. */
  datatype Codecs = Codecs(gzip: (string, nat) -> string, brotli: (string, nat) -> string, hash: string -> nat, mime: string -> string)

  datatype Policy = Policy(t: Tuning, codecs: Codecs, security: seq<string>)

  /** The MIME table holds one-line values without a capital C, as all of src/mime.rs does. */
  ghost predicate PolicyOk(p: Policy) {
    HeaderLines(p.security) && forall url :: EntryText(p.codecs.mime(url))
  }

  // ---------------------------------------------------------------- header values

  function Hex(n: nat): (s: string)
    ensures s != "" && forall i :: 0 <= i < |s| ==> '0' <= s[i] <= '9' || 'a' <= s[i] <= 'f'
  {
    var digit := if n % 16 < 10 then ('0' as int + n % 16) as char else ('a' as int + n % 16 - 10) as char;
    if n < 16 then [digit] else Hex(n / 16) + [digit]
  }

  function Etag(body: string, p: Policy): string {
    Hex(|body|) + "-" + Hex(p.codecs.hash(body))
  }

  lemma EtagIsText(body: string, p: Policy)
    ensures EntryText(Etag(body, p))
  {
  }

  /** The text after the last `c`, and the text before it. */
  function RSplit(s: string, c: char): Option<(string, string)>
  {
    if s == "" then None
    else if s[|s| - 1] == c then Some((s[..|s| - 1], ""))
    else match RSplit(s[..|s| - 1], c)
      case None => None
      case Some((before, after)) => Some((before, after + [s[|s| - 1]]))
  }

  predicate IsHexDigit(c: char) {
    '0' <= c <= '9' || 'a' <= c <= 'f' || 'A' <= c <= 'F'
  }

  /** The file name ends in `-` and 8 or more hex digits that are not all decimal. */
  predicate IsFingerprinted(url: string) {
    var file := match RSplit(url, '/') case None => url case Some((_, f)) => f;
    match RSplit(file, '.')
    case None => false
    case Some((stem, _)) =>
      match RSplit(stem, '-')
      case None => false
      case Some((_, hash)) =>
        && |hash| >= 8
        && (forall i :: 0 <= i < |hash| ==> IsHexDigit(hash[i]))
        && !(forall i :: 0 <= i < |hash| ==> '0' <= hash[i] <= '9')
  }

  function CacheControl(url: string, p: Policy): string {
    if IsFingerprinted(url) then "public, max-age=" + Dec(p.t.immutableMaxAge) + ", immutable"
    else "public, max-age=" + Dec(p.t.cacheMaxAge) + ", must-revalidate"
  }

  lemma TextAppend(a: string, b: string)
    requires EntryText(a) && EntryText(b)
    ensures EntryText(a + b)
  {
  }

  lemma PublicIsText()
    ensures EntryText("public, max-age=")
  {
  }

  lemma DirectiveIsText(immutable: bool)
    ensures EntryText(if immutable then ", immutable" else ", must-revalidate")
  {
  }

  lemma CacheControlIsText(url: string, p: Policy)
    ensures EntryText(CacheControl(url, p))
  {
    PublicIsText();
    DirectiveIsText(IsFingerprinted(url));
    var age := Dec(if IsFingerprinted(url) then p.t.immutableMaxAge else p.t.cacheMaxAge);
    TextAppend("public, max-age=", age);
    TextAppend("public, max-age=" + age, if IsFingerprinted(url) then ", immutable" else ", must-revalidate");
  }

  // ---------------------------------------------------------------- compression

  predicate Has(s: string, w: string) {
    Find(s, w).Some?
  }

  predicate IsCompressible(mime: string) {
    || StartsWith(mime, "text/") || Has(mime, "javascript") || Has(mime, "json")
    || Has(mime, "xml") || Has(mime, "svg") || Has(mime, "wasm")
  }

  /** The gzip and brotli bodies, each only when produced and smaller than the source. */
  function CompressVariants(mime: string, data: string, p: Policy): (r: (Option<string>, Option<string>))
    ensures r.0.Some? ==> |r.0.value| < |data|
    ensures r.1.Some? ==> |r.1.value| < |data|
  {
    if !(p.t.compression && IsCompressible(mime) && |data| >= p.t.minCompressBytes) then (None, None)
    else
      var g := p.codecs.gzip(data, p.t.gzipLevel);
      var b := p.codecs.brotli(data, p.t.brotliQuality);
      (if |data| <= p.t.maxGzipBytes && |g| < |data| then Some(g) else None,
       if |data| <= p.t.maxBrotliBytes && |b| < |data| then Some(b) else None)
  }

  // ---------------------------------------------------------------- the two kinds of entry

  datatype Variant = Variant(fullKa: string, headerLen: nat, etag: string, encoding: Option<string>)
  datatype MemEntry = MemEntry(identity: Variant, gzip: Option<Variant>, br: Option<Variant>, cacheControl: string, vary: bool)

  datatype DiskVariant = DiskVariant(headerKa: string, path: string, len: nat, etag: string, encoding: Option<string>)
  datatype DiskEntry = DiskEntry(identity: DiskVariant, gzip: Option<DiskVariant>, br: Option<DiskVariant>, cacheControl: string, vary: bool)

  datatype Cached = Mem(m: MemEntry) | Disk(d: DiskEntry)

  function RetainedBytes(c: Cached): nat {
    match c
    case Mem(m) =>
      |m.identity.fullKa| + (if m.gzip.Some? then |m.gzip.value.fullKa| else 0) + (if m.br.Some? then |m.br.value.fullKa| else 0)
    case Disk(d) =>
      |d.identity.headerKa| + (if d.gzip.Some? then |d.gzip.value.headerKa| else 0) + (if d.br.Some? then |d.br.value.headerKa| else 0)
  }

  function EntryLayout(url: string, body: string, encoding: Option<string>, vary: bool, p: Policy): Layout {
    OkLayout(p.codecs.mime(url), |body|, Etag(body, p), encoding, vary, CacheControl(url, p), p.security)
  }

  function BuildVariant(url: string, body: string, encoding: Option<string>, vary: bool, p: Policy): Variant {
    var h := Header(EntryLayout(url, body, encoding, vary, p), true);
    Variant(h + body, |h|, Etag(body, p), encoding)
  }

  const GZIP := "gzip"
  const BR := "br"

  function MakeCached(url: string, data: string, p: Policy): MemEntry {
    var (gz, brb) := CompressVariants(p.codecs.mime(url), data, p);
    var vary := gz.Some? || brb.Some?;
    MemEntry(
      BuildVariant(url, data, None, vary, p),
      if gz.Some? then Some(BuildVariant(url, gz.value, Some(GZIP), true, p)) else None,
      if brb.Some? then Some(BuildVariant(url, brb.value, Some(BR), true, p)) else None,
      CacheControl(url, p), vary)
  }

  function TrimSlashes(url: string): string {
    if url != "" && url[0] == '/' then TrimSlashes(url[1..]) else url
  }

  function Namespace(encoding: Option<string>): string {
    match encoding
    case None => "identity"
    case Some(e) => e
  }

  /** Where a body is kept, relative to the build's own snapshot directory. */
  function SnapshotPath(encoding: Option<string>, url: string): string {
    Namespace(encoding) + "/" + TrimSlashes(url)
  }

  function BuildDiskVariant(url: string, body: string, encoding: Option<string>, vary: bool, p: Policy): DiskVariant {
    DiskVariant(Header(EntryLayout(url, body, encoding, vary, p), true), SnapshotPath(encoding, url), |body|, Etag(body, p), encoding)
  }

  function MakeDisk(url: string, data: string, p: Policy): DiskEntry {
    var (gz, brb) := CompressVariants(p.codecs.mime(url), data, p);
    var vary := gz.Some? || brb.Some?;
    DiskEntry(
      BuildDiskVariant(url, data, None, vary, p),
      if gz.Some? then Some(BuildDiskVariant(url, gz.value, Some(GZIP), vary, p)) else None,
      if brb.Some? then Some(BuildDiskVariant(url, brb.value, Some(BR), vary, p)) else None,
      CacheControl(url, p), vary)
  }

  type Files = map<string, string>

  /** The snapshot after the bodies of one file were written to it. */
  function WriteBodies(files: Files, url: string, data: string, p: Policy): Files {
    var (gz, brb) := CompressVariants(p.codecs.mime(url), data, p);
    var f1 := files[SnapshotPath(None, url) := data];
    var f2 := if gz.Some? then f1[SnapshotPath(Some(GZIP), url) := gz.value] else f1;
    if brb.Some? then f2[SnapshotPath(Some(BR), url) := brb.value] else f2
  }

  // ---------------------------------------------------------------- negotiation

  /** "0", "0.", "0.000": the weights that refuse a coding. */
  predicate IsZeroWeight(v: string) {
    && v != "" && v[0] == '0'
    && (|v| == 1 || (v[1] == '.' && forall i :: 2 <= i < |v| ==> v[i] == '0'))
  }

  function Weight(params: seq<string>, acceptable: bool): bool {
    if params == [] then acceptable
    else
      var param := Trim(params[0]);
      Weight(params[1..], if |param| >= 2 && EqIgnoreCase(param[..2], "q=") then !IsZeroWeight(Trim(param[2..])) else acceptable)
  }

  /** An explicit entry wins over any wildcard; an absent one means refusal. */
  function AcceptsIn(parts: seq<string>, token: string, wildcard: bool): bool {
    if parts == [] then wildcard
    else
      var it := Split(parts[0], ";");
      var name := Trim(it[0]);
      var acceptable := Weight(it[1..], true);
      if EqIgnoreCase(name, token) then acceptable
      else AcceptsIn(parts[1..], token, if name == "*" then acceptable else wildcard)
  }

  predicate IsFor(part: string, token: string) {
    EqIgnoreCase(Trim(Split(part, ";")[0]), token)
  }

  predicate IsStar(part: string) {
    Trim(Split(part, ";")[0]) == "*"
  }

  /** What one entry of the field says about its own coding. */
  predicate Allows(part: string) {
    Weight(Split(part, ";")[1..], true)
  }

  /** The first explicit entry for a coding decides, whatever wildcards stand before or after it. */
  lemma {:induction false} FirstEntryDecides(parts: seq<string>, token: string, wildcard: bool, i: nat)
    requires i < |parts| && IsFor(parts[i], token) && forall j :: 0 <= j < i ==> !IsFor(parts[j], token)
    ensures AcceptsIn(parts, token, wildcard) == Allows(parts[i])
    decreases i
  {
    if i > 0 {
      assert !IsFor(parts[0], token);
      assert forall j :: 0 <= j < i - 1 ==> parts[1..][j] == parts[j + 1];
      FirstEntryDecides(parts[1..], token, if IsStar(parts[0]) then Allows(parts[0]) else wildcard, i - 1);
    }
  }

  /** Without an explicit entry the last wildcard decides, and without one the coding is refused. */
  lemma {:induction false} LastWildcardDecides(parts: seq<string>, token: string, wildcard: bool, i: nat)
    requires forall j :: 0 <= j < |parts| ==> !IsFor(parts[j], token)
    requires i <= |parts| && (i < |parts| ==> IsStar(parts[i])) && forall j :: i < j < |parts| ==> !IsStar(parts[j])
    requires i == |parts| ==> forall j :: 0 <= j < |parts| ==> !IsStar(parts[j])
    ensures AcceptsIn(parts, token, wildcard) == if i < |parts| then Allows(parts[i]) else wildcard
    decreases |parts|
  {
    if parts != [] {
      var rest := parts[1..];
      assert !IsFor(parts[0], token);
      assert forall j :: 0 <= j < |rest| ==> rest[j] == parts[j + 1];
      if i == 0 {
        LastWildcardDecides(rest, token, Allows(parts[0]), |rest|);
      } else {
        LastWildcardDecides(rest, token, if IsStar(parts[0]) then Allows(parts[0]) else wildcard, i - 1);
      }
    }
  }

  predicate AcceptsEncoding(field: string, token: string) {
    AcceptsIn(Split(field, ","), token, false)
  }

  function Unquoted(tag: string): string {
    var t := if StartsWith(tag, "W/") then tag[2..] else tag;
    if |t| >= 2 && t[0] == '"' && t[|t| - 1] == '"' then t[1..|t| - 1] else t
  }

  predicate AnyTag(tags: seq<string>, etag: string) {
    tags != [] && (Unquoted(Trim(tags[0])) == etag || AnyTag(tags[1..], etag))
  }

  predicate InmMatches(field: string, etag: string) {
    Trim(field) == "*" || AnyTag(Split(Trim(field), ","), etag)
  }

  /** The characters of the tags that this server makes. */
  predicate TagText(tag: string) {
    forall i :: 0 <= i < |tag| ==> tag[i] != ',' && tag[i] != '"'
  }

  lemma NoComma(s: string)
    requires ',' !in s
    ensures Split(s, ",") == [s]
  {
    forall j: nat ensures !At(s, j, ",") {
      if j < |s| {
        assert s[j..j + 1][0] == s[j] != ',';
      }
    }
    FindUnique(s, ",", None);
  }

  lemma UnquotedQuoted(tag: string)
    ensures Unquoted(Quoted(tag)) == tag && Unquoted("W/" + Quoted(tag)) == tag
  {
    var q := Quoted(tag);
    assert q[0] == '"' && q[1..|q| - 1] == tag;
    assert "W/"[0] == 'W' && ("W/" + q)[..2] == "W/" && ("W/" + q)[2..] == q;
  }

  lemma FieldOfOneTag(tag: string, field: string)
    requires TagText(tag) && (field == Quoted(tag) || field == "W/" + Quoted(tag))
    ensures |field| > 1 && ',' !in field && IsVisible(field[0]) && IsVisible(field[|field| - 1])
  {
    var q := Quoted(tag);
    assert q[0] == '"' && q[|q| - 1] == '"' && ',' !in q;
    assert ',' !in "W/" && "W/"[0] == 'W';
  }

  /** A single tag, strong or weak, matches exactly the same tag. */
  lemma OneTagMatches(tag: string, etag: string, field: string)
    requires TagText(tag) && (field == Quoted(tag) || field == "W/" + Quoted(tag))
    ensures InmMatches(field, etag) <==> tag == etag
  {
    UnquotedQuoted(tag);
    FieldOfOneTag(tag, field);
    TrimKeeps(field);
    NoComma(field);
    assert AnyTag([field], etag) <==> Unquoted(field) == etag by {
      assert [field][1..] == [];
    }
  }

  function Choose<T>(identity: T, gzip: Option<T>, br: Option<T>, acceptEnc: string): T {
    if br.Some? && AcceptsEncoding(acceptEnc, "br") then br.value
    else if gzip.Some? && AcceptsEncoding(acceptEnc, "gzip") then gzip.value
    else identity
  }

  // ---------------------------------------------------------------- serving

  /** What a request asks of an entry: the fields negotiation looks at, and the connection state. */
  datatype Ask = Ask(acceptEnc: string, inm: string, keepAlive: bool, isHead: bool)
  datatype Served = Served(wire: string, keepAlive: bool)

  function NotModified(etag: string, encoding: Option<string>, vary: bool, cacheControl: string, ask: Ask, security: seq<string>): Served {
    Served(Header(NotModifiedLayout(etag, encoding, vary, cacheControl, security), ask.keepAlive), ask.keepAlive)
  }

  function ServeMem(e: MemEntry, ask: Ask, security: seq<string>): Served
    requires WholeHeaders(e)
  {
    var v := Choose(e.identity, e.gzip, e.br, ask.acceptEnc);
    if ask.inm != "" && InmMatches(ask.inm, v.etag) then
      NotModified(v.etag, v.encoding, e.vary, e.cacheControl, ask, security)
    else
      var header := v.fullKa[..v.headerLen];
      if ask.keepAlive then Served(if ask.isHead then header else v.fullKa, true)
      else Served(FlipToClose(header) + if ask.isHead then "" else v.fullKa[v.headerLen..], false)
  }

  lemma EtagIsTag(body: string, p: Policy)
    ensures TagText(Etag(body, p))
  {
  }

  predicate WholeHeaders(e: MemEntry) {
    && e.identity.headerLen <= |e.identity.fullKa|
    && (e.gzip.Some? ==> e.gzip.value.headerLen <= |e.gzip.value.fullKa|)
    && (e.br.Some? ==> e.br.value.headerLen <= |e.br.value.fullKa|)
  }

  /** Serving from the snapshot: the body is the first `len` bytes of its file, if the file is there. */
  function ServeDisk(e: DiskEntry, files: Files, ask: Ask, security: seq<string>): Served {
    var v := Choose(e.identity, e.gzip, e.br, ask.acceptEnc);
    if ask.inm != "" && InmMatches(ask.inm, v.etag) then
      NotModified(v.etag, v.encoding, e.vary, e.cacheControl, ask, security)
    else
      var header := if ask.keepAlive then v.headerKa else FlipToClose(v.headerKa);
      if ask.isHead then Served(header, ask.keepAlive)
      else if v.path !in files then Served(BuildStatus(InternalError, security).Bytes(false, false), false)
      else
        var file := files[v.path];
        Served(header + if |file| < v.len then file else file[..v.len], ask.keepAlive)
  }

  const STREAM_CHUNK: nat := 65536

  function Min(a: nat, b: nat): nat { if a < b then a else b }

  /**
   Copy at most `len` bytes of a file in bounded chunks. `sizes(k)` is how much the k-th read
   would like to return; a read returns at least one byte until the file ends.
   */
  method StreamBody(file: string, len: nat, sizes: nat -> nat) returns (out: string)
    ensures out == file[..Min(len, |file|)]
  {
    out := "";
    var remaining, pos, k := len, 0, 0;
    while remaining > 0
      invariant |out| == len - remaining <= |file| && out == file[..|out|]
      invariant pos <= |file| && (remaining > 0 ==> pos == |out|)
      decreases remaining
    {
      var left := Min(|file| - pos, STREAM_CHUNK);
      var n := if left == 0 then 0 else if sizes(k) == 0 then 1 else Min(sizes(k), left);
      if n == 0 {
        break;
      }
      var take := Min(n, remaining);
      out := out + file[pos..pos + take];
      remaining, pos, k := remaining - take, pos + n, k + 1;
    }
  }

  /** The disk path with its streaming loop writes what `ServeDisk` says. */
  method ServeFromDisk(e: DiskEntry, files: Files, ask: Ask, security: seq<string>, sizes: nat -> nat) returns (r: Served)
    ensures r == ServeDisk(e, files, ask, security)
  {
    var v := Choose(e.identity, e.gzip, e.br, ask.acceptEnc);
    if ask.inm != "" && InmMatches(ask.inm, v.etag) {
      return NotModified(v.etag, v.encoding, e.vary, e.cacheControl, ask, security);
    }
    var header := if ask.keepAlive then v.headerKa else FlipToClose(v.headerKa);
    if ask.isHead {
      return Served(header, ask.keepAlive);
    }
    if v.path !in files {
      return Served(BuildStatus(InternalError, security).Bytes(false, false), false);
    }
    var body := StreamBody(files[v.path], v.len, sizes);
    assert files[v.path][..|files[v.path]|] == files[v.path];
    return Served(header + body, ask.keepAlive);
  }

  // ---------------------------------------------------------------- the backends agree

  /** A disk variant and its snapshot file hold what the memory variant holds. */
  ghost predicate SameVariant(v: Variant, d: DiskVariant, files: Files) {
    && d.path in files && d.len == |files[d.path]|
    && v.fullKa == d.headerKa + files[d.path] && v.headerLen == |d.headerKa|
    && v.etag == d.etag && v.encoding == d.encoding
  }

  ghost predicate SameOptional(v: Option<Variant>, d: Option<DiskVariant>, files: Files) {
    match (v, d)
    case (None, None) => true
    case (Some(v), Some(d)) => SameVariant(v, d, files)
    case _ => false
  }

  ghost predicate SameEntry(m: MemEntry, d: DiskEntry, files: Files) {
    && SameVariant(m.identity, d.identity, files)
    && SameOptional(m.gzip, d.gzip, files) && SameOptional(m.br, d.br, files)
    && m.cacheControl == d.cacheControl && m.vary == d.vary
  }

  lemma SameEntryWholeHeaders(m: MemEntry, d: DiskEntry, files: Files)
    requires SameEntry(m, d, files)
    ensures WholeHeaders(m)
  {
  }

  /** Every request gets the same bytes and the same connection state from either backend. */
  lemma SameEntryServesAlike(m: MemEntry, d: DiskEntry, files: Files, ask: Ask, security: seq<string>)
    requires SameEntry(m, d, files)
    ensures WholeHeaders(m) && ServeMem(m, ask, security) == ServeDisk(d, files, ask, security)
  {
    SameEntryWholeHeaders(m, d, files);
    var v := Choose(m.identity, m.gzip, m.br, ask.acceptEnc);
    var dv := Choose(d.identity, d.gzip, d.br, ask.acceptEnc);
    assert SameVariant(v, dv, files);
    assert v.fullKa[..v.headerLen] == dv.headerKa && v.fullKa[v.headerLen..] == files[dv.path];
    assert files[dv.path][..dv.len] == files[dv.path];
    assert FlipToClose(dv.headerKa) + "" == FlipToClose(dv.headerKa);
  }

  // ---------------------------------------------------------------- snapshot paths do not collide

  /** URLs as `walk` builds them: one leading slash, then a non-empty name. */
  predicate WalkUrl(url: string) {
    |url| > 1 && url[0] == '/' && url[1] != '/'
  }

  predicate KnownEncoding(e: Option<string>) {
    e == None || e == Some(GZIP) || e == Some(BR)
  }

  /** The map from (URL, encoding) to snapshot file is injective, whatever the files are named. */
  lemma SnapshotPathsDiffer(e1: Option<string>, url1: string, e2: Option<string>, url2: string)
    requires KnownEncoding(e1) && KnownEncoding(e2) && WalkUrl(url1) && WalkUrl(url2)
    ensures SnapshotPath(e1, url1) == SnapshotPath(e2, url2) ==> e1 == e2 && url1 == url2
  {
    var p1, p2 := SnapshotPath(e1, url1), SnapshotPath(e2, url2);
    TrimOnce(url1);
    TrimOnce(url2);
    NamespaceEnds(e1, url1);
    NamespaceEnds(e2, url2);
    if p1 == p2 {
      assert |Namespace(e1)| == |Namespace(e2)|;
      assert p1[|Namespace(e1)| + 1..] == url1[1..] && p2[|Namespace(e2)| + 1..] == url2[1..];
      assert url1 == [url1[0]] + url1[1..] && url2 == [url2[0]] + url2[1..];
    }
  }

  lemma TrimOnce(url: string)
    requires WalkUrl(url)
    ensures TrimSlashes(url) == url[1..]
  {
  }

  /** No namespace contains a slash, so its end can be read off the path. */
  lemma NamespaceEnds(e: Option<string>, url: string)
    requires KnownEncoding(e)
    ensures var n := |Namespace(e)|;
            SnapshotPath(e, url)[n] == '/' && forall i :: 0 <= i < n ==> SnapshotPath(e, url)[i] != '/'
  {
    assert forall i :: 0 <= i < |Namespace(e)| ==> SnapshotPath(e, url)[i] == Namespace(e)[i];
  }

  // ---------------------------------------------------------------- what the builders build

  /** The snapshot holds the bodies of this entry, each at its own path. */
  ghost predicate HoldsBodies(files: Files, url: string, data: string, p: Policy) {
    var (gz, brb) := CompressVariants(p.codecs.mime(url), data, p);
    && HoldsBody(files, None, url, data)
    && (gz.Some? ==> HoldsBody(files, Some(GZIP), url, gz.value))
    && (brb.Some? ==> HoldsBody(files, Some(BR), url, brb.value))
  }

  ghost predicate HoldsBody(files: Files, encoding: Option<string>, url: string, body: string) {
    SnapshotPath(encoding, url) in files && files[SnapshotPath(encoding, url)] == body
  }

  lemma WriteBodiesHolds(files: Files, url: string, data: string, p: Policy)
    requires WalkUrl(url)
    ensures HoldsBodies(WriteBodies(files, url, data, p), url, data, p)
  {
    SnapshotPathsDiffer(None, url, Some(GZIP), url);
    SnapshotPathsDiffer(None, url, Some(BR), url);
    SnapshotPathsDiffer(Some(GZIP), url, Some(BR), url);
  }

  /** Writing one file's bodies disturbs no other URL's. */
  lemma WriteBodiesKeeps(files: Files, url: string, data: string, p: Policy, other: string, otherData: string)
    requires WalkUrl(url) && WalkUrl(other) && url != other && HoldsBodies(files, other, otherData, p)
    ensures HoldsBodies(WriteBodies(files, url, data, p), other, otherData, p)
  {
    forall e, d | KnownEncoding(e) && KnownEncoding(d) ensures SnapshotPath(e, url) != SnapshotPath(d, other) {
      SnapshotPathsDiffer(e, url, d, other);
    }
  }

  /** Both builders build the same entry, up to where the bodies are. */
  lemma MakeSame(url: string, data: string, p: Policy, files: Files)
    requires HoldsBodies(files, url, data, p)
    ensures SameEntry(MakeCached(url, data, p), MakeDisk(url, data, p), files)
  {
  }

  lemma EntryHeader(url: string, body: string, encoding: Option<string>, vary: bool, p: Policy)
    requires PolicyOk(p) && KnownEncoding(encoding)
    ensures PlainLayout(EntryLayout(url, body, encoding, vary, p))
    ensures FlipToClose(Header(EntryLayout(url, body, encoding, vary, p), true)) == Header(EntryLayout(url, body, encoding, vary, p), false)
  {
    EtagIsText(body, p);
    CacheControlIsText(url, p);
    OkPlain(p.codecs.mime(url), |body|, Etag(body, p), encoding, vary, CacheControl(url, p), p.security);
    OkHarmless(p.codecs.mime(url), |body|, Etag(body, p), encoding, vary, CacheControl(url, p), p.security);
    FlipIsRebuild(EntryLayout(url, body, encoding, vary, p));
  }

  /** The response that serving a variant of this entry amounts to. */
  function VariantResponse(url: string, body: string, encoding: Option<string>, vary: bool, ask: Ask, p: Policy): Response {
    if ask.inm != "" && InmMatches(ask.inm, Etag(body, p)) then
      Response(Lines(NotModifiedLayout(Etag(body, p), encoding, vary, CacheControl(url, p), p.security), ask.keepAlive), "")
    else
      Response(Lines(EntryLayout(url, body, encoding, vary, p), ask.keepAlive), if ask.isHead then "" else body)
  }

  /** What either backend serves for a file: the variant that negotiation picks. */
  function EntryResponse(url: string, data: string, ask: Ask, p: Policy): Response {
    var (gz, brb) := CompressVariants(p.codecs.mime(url), data, p);
    var vary := gz.Some? || brb.Some?;
    if brb.Some? && AcceptsEncoding(ask.acceptEnc, "br") then VariantResponse(url, brb.value, Some(BR), vary, ask, p)
    else if gz.Some? && AcceptsEncoding(ask.acceptEnc, "gzip") then VariantResponse(url, gz.value, Some(GZIP), vary, ask, p)
    else VariantResponse(url, data, None, vary, ask, p)
  }

  /** The bytes that serving one variant writes, and the response a client reads from them. */
  lemma VariantFramed(url: string, body: string, encoding: Option<string>, vary: bool, ask: Ask, p: Policy)
    requires PolicyOk(p) && KnownEncoding(encoding)
    ensures var l := EntryLayout(url, body, encoding, vary, p);
            var sent := if ask.isHead then "" else body;
            Framed(Header(l, ask.keepAlive) + sent, Response(Lines(l, ask.keepAlive), sent), ask.isHead, ask.keepAlive)
    ensures var l := NotModifiedLayout(Etag(body, p), encoding, vary, CacheControl(url, p), p.security);
            Framed(Header(l, ask.keepAlive), Response(Lines(l, ask.keepAlive), ""), ask.isHead, ask.keepAlive)
  {
    EntryHeader(url, body, encoding, vary, p);
    LayoutFramed(EntryLayout(url, body, encoding, vary, p), ask.keepAlive, if ask.isHead then "" else body, ask.isHead);
    EtagIsText(body, p);
    CacheControlIsText(url, p);
    NotModifiedFramed(Etag(body, p), encoding, vary, CacheControl(url, p), p.security, ask.keepAlive, ask.isHead);
  }

  lemma HeaderAndBody(header: string, body: string)
    ensures (header + body)[..|header|] == header && (header + body)[|header|..] == body && header + "" == header
  {
  }

  /** The bytes of a 200 in all four forms: a whole header, flipped if the connection closes, and the body unless HEAD. */
  lemma ServeBody(e: MemEntry, url: string, body: string, encoding: Option<string>, ask: Ask, p: Policy)
    requires PolicyOk(p) && KnownEncoding(encoding) && WholeHeaders(e)
    requires Choose(e.identity, e.gzip, e.br, ask.acceptEnc) == BuildVariant(url, body, encoding, e.vary, p)
    requires !(ask.inm != "" && InmMatches(ask.inm, Etag(body, p)))
    ensures ServeMem(e, ask, p.security)
            == Served(Header(EntryLayout(url, body, encoding, e.vary, p), ask.keepAlive) + (if ask.isHead then "" else body), ask.keepAlive)
  {
    EntryHeader(url, body, encoding, e.vary, p);
    HeaderAndBody(Header(EntryLayout(url, body, encoding, e.vary, p), true), body);
  }

  lemma ServeVariant(e: MemEntry, url: string, body: string, encoding: Option<string>, ask: Ask, p: Policy)
    requires PolicyOk(p) && KnownEncoding(encoding) && WholeHeaders(e)
    requires Choose(e.identity, e.gzip, e.br, ask.acceptEnc) == BuildVariant(url, body, encoding, e.vary, p)
    requires e.cacheControl == CacheControl(url, p)
    ensures var served := ServeMem(e, ask, p.security);
            served.keepAlive == ask.keepAlive &&
            Framed(served.wire, VariantResponse(url, body, encoding, e.vary, ask, p), ask.isHead, ask.keepAlive)
  {
    VariantFramed(url, body, encoding, e.vary, ask, p);
    if !(ask.inm != "" && InmMatches(ask.inm, Etag(body, p))) {
      ServeBody(e, url, body, encoding, ask, p);
    }
  }

  /** Every answer from the cache, 200 or 304, is a self-delimiting response with the right Connection field. */
  lemma ServeMemFramed(url: string, data: string, ask: Ask, p: Policy)
    requires PolicyOk(p)
    ensures WholeHeaders(MakeCached(url, data, p))
    ensures var served := ServeMem(MakeCached(url, data, p), ask, p.security);
            served.keepAlive == ask.keepAlive && Framed(served.wire, EntryResponse(url, data, ask, p), ask.isHead, ask.keepAlive)
  {
    var e := MakeCached(url, data, p);
    var (gz, brb) := CompressVariants(p.codecs.mime(url), data, p);
    if brb.Some? && AcceptsEncoding(ask.acceptEnc, "br") {
      ServeVariant(e, url, brb.value, Some(BR), ask, p);
    } else if gz.Some? && AcceptsEncoding(ask.acceptEnc, "gzip") {
      ServeVariant(e, url, gz.value, Some(GZIP), ask, p);
    } else {
      ServeVariant(e, url, data, None, ask, p);
    }
  }

  /**
   Revalidation: the tag of the 200 that a request would get, sent back in If-None-Match strong or
   weak, gets the 304 for the same variant.
   */
  lemma EchoedTagRevalidates(url: string, data: string, ask: Ask, p: Policy, v: Variant)
    requires WholeHeaders(MakeCached(url, data, p))
    requires var e := MakeCached(url, data, p); v == Choose(e.identity, e.gzip, e.br, ask.acceptEnc)
    requires ask.inm == Quoted(v.etag) || ask.inm == "W/" + Quoted(v.etag)
    ensures var e := MakeCached(url, data, p);
            ServeMem(e, ask, p.security) == NotModified(v.etag, v.encoding, e.vary, e.cacheControl, ask, p.security)
  {
    VariantTag(url, data, ask, p, v);
    OneTagMatches(v.etag, v.etag, ask.inm);
  }

  lemma VariantTag(url: string, data: string, ask: Ask, p: Policy, v: Variant)
    requires var e := MakeCached(url, data, p); v == Choose(e.identity, e.gzip, e.br, ask.acceptEnc)
    ensures TagText(v.etag)
  {
    var (gz, brb) := CompressVariants(p.codecs.mime(url), data, p);
    EtagIsTag(data, p);
    if gz.Some? {
      EtagIsTag(gz.value, p);
    }
    if brb.Some? {
      EtagIsTag(brb.value, p);
    }
  }
}
