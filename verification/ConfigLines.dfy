/**
 The config file line by line: comments, line shapes, keys and value parsers (`parse_size` to
 `parse_header_value`, `apply_shared`).
 */
module ConfigLines {
  import opened Bytes
  import opened PercentCoding
  import opened Printers
  import opened RequestHead
  import opened Entries

  // ---------------------------------------------------------------- keys

  /** Settings of the server that a site block may override. */
  datatype SharedKey =
    | Compression | BrotliQuality | GzipLevel | MinCompressBytes | MaxBrotliBytes | MaxGzipBytes | MaxFileSize
    | CacheMaxAge | ImmutableMaxAge | HstsMaxAge | HstsSubdomains | HstsPreload | Csp

  datatype ServerKey = Listen | ListenHttp | MaxTotalBytes | StorageKind | DiskCache | MaxConnsPerIp | MaxResponseSecs

  datatype SiteKey = Root | Cert | PrivateKey | ForceSsl | CanonicalUrls | RedirectKey

  datatype Key = Shared(shared: SharedKey) | OfServer(server: ServerKey) | OfSite(site: SiteKey) | Unknown

  function SharedKeyOf(k: string): Option<SharedKey> {
    if k == "compression" then Some(Compression)
    else if k == "brotli_quality" then Some(BrotliQuality)
    else if k == "gzip_level" then Some(GzipLevel)
    else if k == "min_compress_bytes" then Some(MinCompressBytes)
    else if k == "max_brotli_bytes" then Some(MaxBrotliBytes)
    else if k == "max_gzip_bytes" then Some(MaxGzipBytes)
    else if k == "max_file_size" then Some(MaxFileSize)
    else if k == "cache_max_age" then Some(CacheMaxAge)
    else if k == "immutable_max_age" then Some(ImmutableMaxAge)
    else if k == "hsts_max_age" then Some(HstsMaxAge)
    else if k == "hsts_include_subdomains" then Some(HstsSubdomains)
    else if k == "hsts_preload" then Some(HstsPreload)
    else if k == "csp" then Some(Csp)
    else None
  }

  function ServerKeyOf(k: string): Option<ServerKey> {
    if k == "listen" then Some(Listen)
    else if k == "listen_http" then Some(ListenHttp)
    else if k == "max_total_bytes" then Some(MaxTotalBytes)
    else if k == "storage" then Some(StorageKind)
    else if k == "disk_cache" then Some(DiskCache)
    else if k == "max_conns_per_ip" then Some(MaxConnsPerIp)
    else if k == "max_response_secs" then Some(MaxResponseSecs)
    else None
  }

  function SiteKeyOf(k: string): Option<SiteKey> {
    if k == "root" then Some(Root)
    else if k == "cert" then Some(Cert)
    else if k == "key" then Some(PrivateKey)
    else if k == "force_ssl" then Some(ForceSsl)
    else if k == "canonical_urls" then Some(CanonicalUrls)
    else if k == "redirect" then Some(RedirectKey)
    else None
  }

  function KeyOf(k: string): Key {
    if SharedKeyOf(k).Some? then Shared(SharedKeyOf(k).value)
    else if ServerKeyOf(k).Some? then OfServer(ServerKeyOf(k).value)
    else if SiteKeyOf(k).Some? then OfSite(SiteKeyOf(k).value)
    else Unknown
  }

  // ---------------------------------------------------------------- lines

  datatype ConfigLine =
    | Blank
    | Close
    | SiteLine(rest: string)
    | RedirectLine(rest: string)
    | Pair(key: Key, value: string)
    | Garbage

  predicate IsAsciiSpace(c: char) {
    c == ' ' || c == '\t' || c == '\n' || c == '\r' || c as int == 0x0C
  }

  /** Only the first `#` is looked at; it starts a comment at the start of the line or after white space. */
  function Uncommented(raw: string): string {
    FindSpec(raw, "#");
    match Find(raw, "#")
    case None => raw
    case Some(p) =>
      if p == 0 then ""
      else if IsAsciiSpace(raw[p - 1]) then raw[..p]
      else raw
  }

  function SplitOnce(s: string, sep: string): Option<(string, string)> {
    FindSpec(s, sep);
    match Find(s, sep)
    case None => None
    case Some(p) => Some((s[..p], s[p + |sep|..]))
  }

  function After(line: string, word: string): Option<string> {
    if StartsWith(line, word + " ") || StartsWith(line, word + "\t") then Some(Trim(line[|word| + 1..])) else None
  }

  function ReadLine(raw: string): ConfigLine {
    var line := Trim(Uncommented(raw));
    if line == "" then Blank
    else if line == "}" then Close
    else match After(line, "site")
      case Some(rest) => SiteLine(rest)
      case None =>
        match After(line, "redirect")
        case Some(rest) => RedirectLine(rest)
        case None =>
          match SplitOnce(line, "=")
          case None => Garbage
          case Some((k, v)) => Pair(KeyOf(Trim(k)), Trim(v))
  }

  function LinesOf(pieces: seq<string>): seq<ConfigLine> {
    seq(|pieces|, i requires 0 <= i < |pieces| => ReadLine(pieces[i]))
  }

  /** The names that a `site a, b {` line opens a block for; `None` when it opens no block. */
  function OpenedHosts(rest: string): Option<seq<string>> {
    if !EndsWith(rest, "{") then None else Some(HostNames(Split(rest[..|rest| - 1], ",")))
  }

  function HostNames(pieces: seq<string>): seq<string> {
    if pieces == [] then []
    else
      var name := LowerAll(Trim(pieces[0]));
      (if name == "" then [] else [name]) + HostNames(pieces[1..])
  }

  // ---------------------------------------------------------------- values

  const U32_MAX: nat := 0xFFFF_FFFF

  /** An unsigned number: digits, with one `+` allowed in front, that fits the type. */
  function ParseUnsigned(s: string, max: nat): Option<nat> {
    match ParseDec(if StartsWith(s, "+") then s[1..] else s)
    case None => None
    case Some(n) => if n <= max then Some(n) else None
  }

  /** How many bytes the last character of a size stands for. */
  function Unit(c: char): Option<nat> {
    if c == 'k' || c == 'K' then Some(0x400)
    else if c == 'm' || c == 'M' then Some(0x10_0000)
    else if c == 'g' || c == 'G' then Some(0x4000_0000)
    else None
  }

  /** The product must fit a `usize` too. */
  function Scaled(n: Option<nat>, unit: nat): Option<nat> {
    if n.Some? && n.value * unit <= USIZE_MAX then Some(n.value * unit) else None
  }

  function UnitOf(t: string): Option<nat> {
    if t == "" then None else Unit(t[|t| - 1])
  }

  function SizeOf(t: string): Option<nat> {
    match UnitOf(t)
    case None => ParseUnsigned(t, USIZE_MAX)
    case Some(unit) => Scaled(ParseUnsigned(Trim(if t == "" then t else t[..|t| - 1]), USIZE_MAX), unit)
  }

  /** A byte count, or one with a K, M or G suffix. */
  function ParseSize(v: string): Option<nat> {
    SizeOf(Trim(v))
  }

  lemma DigitsParse(n: nat, max: nat)
    ensures Trim(Dec(n)) == Dec(n) && ParseUnsigned(Dec(n), max) == if n <= max then Some(n) else None
  {
    TrimKeeps(Dec(n));
    ParseDecOfDec(n);
    assert Dec(n)[..1][0] == Dec(n)[0] != '+';
  }

  lemma ScaledFits(n: nat, unit: nat)
    requires unit > 0
    ensures Scaled(if n <= USIZE_MAX then Some(n) else None, unit) == if n * unit <= USIZE_MAX then Some(n * unit) else None
  {
    assert n * unit >= n;
  }

  /** A size in K, M or G is that many times 2 to the 10th, 20th or 30th, unless the product does not fit. */
  lemma SizeWithUnit(n: nat, u: char, unit: nat, v: string)
    requires v == Dec(n) + [u]
    requires unit == if u == 'k' || u == 'K' then 1024 else if u == 'm' || u == 'M' then 1024 * 1024 else 1024 * 1024 * 1024
    requires u == 'k' || u == 'K' || u == 'm' || u == 'M' || u == 'g' || u == 'G'
    ensures ParseSize(v) == if n * unit <= USIZE_MAX then Some(n * unit) else None
  {
    assert v[0] == Dec(n)[0] && v[|v| - 1] == u && v[..|v| - 1] == Dec(n);
    TrimKeeps(v);
    DigitsParse(n, USIZE_MAX);
    ScaledFits(n, unit);
  }

  lemma NoUnit(t: string)
    requires t != "" && '0' <= t[|t| - 1] <= '9'
    ensures SizeOf(t) == ParseUnsigned(t, USIZE_MAX)
  {
    assert UnitOf(t) == None;
  }

  /** Without a suffix, a size is its digits. */
  lemma PlainSize(n: nat, v: string)
    requires v == Dec(n)
    ensures ParseSize(v) == if n <= USIZE_MAX then Some(n) else None
  {
    DigitsParse(n, USIZE_MAX);
    NoUnit(v);
  }

  function ParseBool(v: string): Option<bool> {
    var t := LowerAll(Trim(v));
    if t == "on" || t == "true" || t == "yes" || t == "1" then Some(true)
    else if t == "off" || t == "false" || t == "no" || t == "0" then Some(false)
    else None
  }

  function ParseRanged(v: string, hi: nat): Option<nat> {
    match ParseUnsigned(Trim(v), U32_MAX)
    case None => None
    case Some(n) => if n <= hi then Some(n) else None
  }

  function ParseSecs(v: string): Option<nat> {
    ParseUnsigned(Trim(v), USIZE_MAX)
  }

  const MAX_DEADLINE_SECS: nat := 86_400

  function ParseDeadline(v: string): Option<nat> {
    match ParseSecs(v)
    case None => None
    case Some(n) => if n <= MAX_DEADLINE_SECS then Some(n) else None
  }

  function ParseHeaderValue(v: string): Option<string> {
    if ControlFree(Trim(v)) then Some(Trim(v)) else None
  }

  /** `host:port`, split at the last colon; neither side may be blank. */
  function ParseListen(v: string): Option<(string, string)> {
    match RSplit(v, ':')
    case None => None
    case Some((host, port)) => if Trim(host) == "" || Trim(port) == "" then None else Some((host, port))
  }

  // ---------------------------------------------------------------- shared settings

  datatype Value = Flag(b: bool) | Num(n: nat) | Text(s: string)

  function AsFlag(b: Option<bool>): Option<Value> {
    match b case None => None case Some(b) => Some(Flag(b))
  }

  function AsNum(n: Option<nat>): Option<Value> {
    match n case None => None case Some(n) => Some(Num(n))
  }

  function AsText(s: Option<string>): Option<Value> {
    match s case None => None case Some(s) => Some(Text(s))
  }

  datatype ValueKind = Switch | Level(max: nat) | Size | Seconds | HeaderText

  function KindOf(k: SharedKey): ValueKind {
    match k
    case Compression => Switch
    case BrotliQuality => Level(11)
    case GzipLevel => Level(9)
    case MinCompressBytes => Size
    case MaxBrotliBytes => Size
    case MaxGzipBytes => Size
    case MaxFileSize => Size
    case CacheMaxAge => Seconds
    case ImmutableMaxAge => Seconds
    case HstsMaxAge => Seconds
    case HstsSubdomains => Switch
    case HstsPreload => Switch
    case Csp => HeaderText
  }

  function ParseAs(kind: ValueKind, v: string): Option<Value> {
    match kind
    case Switch => AsFlag(ParseBool(v))
    case Level(max) => AsNum(ParseRanged(v, max))
    case Size => AsNum(ParseSize(v))
    case Seconds => AsNum(ParseSecs(v))
    case HeaderText => AsText(ParseHeaderValue(v))
  }

  /** What a line for this key sets; `None` is an invalid value. */
  function SharedValue(k: SharedKey, v: string): Option<Value> {
    ParseAs(KindOf(k), v)
  }

  datatype Policies = Policies(tuning: Tuning, headers: HeaderConfig)

  /** The kind of value that a key takes. */
  predicate Fits(k: SharedKey, x: Value) {
    match KindOf(k)
    case Switch => x.Flag?
    case HeaderText => x.Text?
    case _ => x.Num?
  }

  function Set(p: Policies, k: SharedKey, x: Value): Policies
    requires Fits(k, x)
  {
    var t, h := p.tuning, p.headers;
    match k
    case Compression => p.(tuning := t.(compression := x.b))
    case BrotliQuality => p.(tuning := t.(brotliQuality := x.n))
    case GzipLevel => p.(tuning := t.(gzipLevel := x.n))
    case MinCompressBytes => p.(tuning := t.(minCompressBytes := x.n))
    case MaxBrotliBytes => p.(tuning := t.(maxBrotliBytes := x.n))
    case MaxGzipBytes => p.(tuning := t.(maxGzipBytes := x.n))
    case MaxFileSize => p.(tuning := t.(maxFileSize := x.n))
    case CacheMaxAge => p.(tuning := t.(cacheMaxAge := x.n))
    case ImmutableMaxAge => p.(tuning := t.(immutableMaxAge := x.n))
    case HstsMaxAge => p.(headers := h.(hstsMaxAge := x.n))
    case HstsSubdomains => p.(headers := h.(includeSubdomains := x.b))
    case HstsPreload => p.(headers := h.(preload := x.b))
    case Csp => p.(headers := h.(csp := x.s))
  }

  function Get(p: Policies, k: SharedKey): Value {
    match k
    case Compression => Flag(p.tuning.compression)
    case BrotliQuality => Num(p.tuning.brotliQuality)
    case GzipLevel => Num(p.tuning.gzipLevel)
    case MinCompressBytes => Num(p.tuning.minCompressBytes)
    case MaxBrotliBytes => Num(p.tuning.maxBrotliBytes)
    case MaxGzipBytes => Num(p.tuning.maxGzipBytes)
    case MaxFileSize => Num(p.tuning.maxFileSize)
    case CacheMaxAge => Num(p.tuning.cacheMaxAge)
    case ImmutableMaxAge => Num(p.tuning.immutableMaxAge)
    case HstsMaxAge => Num(p.headers.hstsMaxAge)
    case HstsSubdomains => Flag(p.headers.includeSubdomains)
    case HstsPreload => Flag(p.headers.preload)
    case Csp => Text(p.headers.csp)
  }

  lemma SharedValueFits(k: SharedKey, v: string)
    requires SharedValue(k, v).Some?
    ensures Fits(k, SharedValue(k, v).value)
  {
  }

  /** One setting changes, and no other: not the shared budget either. */
  lemma SetThenGet(p: Policies, k: SharedKey, x: Value, j: SharedKey)
    requires Fits(k, x)
    ensures Get(Set(p, k, x), j) == if j == k then x else Get(p, j)
    ensures Set(p, k, x).tuning.maxTotalBytes == p.tuning.maxTotalBytes
  {
  }

  /** Settings and budget say all there is: two policies that agree on them are equal. */
  lemma SettingsDecide(p: Policies, q: Policies)
    requires p.tuning.maxTotalBytes == q.tuning.maxTotalBytes
    requires forall k :: Get(p, k) == Get(q, k)
    ensures p == q
  {
    assert Get(p, Compression) == Get(q, Compression) && Get(p, BrotliQuality) == Get(q, BrotliQuality);
    assert Get(p, GzipLevel) == Get(q, GzipLevel) && Get(p, MinCompressBytes) == Get(q, MinCompressBytes);
    assert Get(p, MaxBrotliBytes) == Get(q, MaxBrotliBytes) && Get(p, MaxGzipBytes) == Get(q, MaxGzipBytes);
    assert Get(p, MaxFileSize) == Get(q, MaxFileSize) && Get(p, CacheMaxAge) == Get(q, CacheMaxAge);
    assert Get(p, ImmutableMaxAge) == Get(q, ImmutableMaxAge) && Get(p, HstsMaxAge) == Get(q, HstsMaxAge);
    assert Get(p, HstsSubdomains) == Get(q, HstsSubdomains) && Get(p, HstsPreload) == Get(q, HstsPreload);
    assert Get(p, Csp) == Get(q, Csp);
  }

  datatype Result<+T, +E> = Ok(value: T) | Err(error: E)

  /** Apply one shared setting; an invalid value changes nothing. */
  function ApplyShared(p: Policies, k: SharedKey, v: string): Result<Policies, SharedKey> {
    match SharedValue(k, v)
    case None => Err(k)
    case Some(x) =>
      SharedValueFits(k, v);
      Ok(Set(p, k, x))
  }
}
