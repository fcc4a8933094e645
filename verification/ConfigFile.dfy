/**
 The config parser (`parse_config`): a one-pass line machine with deferred overrides, and the
 two-pass meaning that it must have.
 */
module ConfigFile {
  import opened Bytes
  import opened Responses
  import opened Printers
  import opened RequestHead
  import opened Entries
  import opened RedirectRules
  import opened ConfigLines
  import Walk

  datatype Problem =
    | StrayClose | FlatSite | NestedSite | NoBlock | NoHosts
    | FlatRedirect | RuleOutside | NoArrow | EmptyPattern | BadRule(rule: RuleError)
    | Malformed | BadValue | ServerSetting | UnknownSetting | SiteSetting | UnknownKey | BadListen
    | Unclosed | MissingListen | NoSites | NoDiskCache | MissingCert | MissingKey | NothingToServe

  /** The top-level settings. */
  datatype Server = Server(
    host: string, port: string, httpHost: string, httpPort: string, maxConnsPerIp: nat, maxResponseSecs: nat,
    storage: Walk.Storage, diskCache: Option<string>, defaults: Policies)

  /** A site block still being read; its overrides wait for the end of the file. */
  datatype Block = Block(
    hosts: seq<string>, root: Option<string>, cert: Option<string>, key: Option<string>, forceSsl: bool,
    canonicalUrls: bool, rules: Rules, overrides: seq<(SharedKey, string)>)

  datatype SiteConfig = SiteConfig(
    hosts: seq<string>, root: Option<string>, cert: string, key: string, forceSsl: bool, canonicalUrls: bool,
    rules: Rules, policies: Policies)

  datatype Config = Config(server: Server, sites: seq<SiteConfig>)

  const DEFAULT_POLICIES := Policies(
    Tuning(true, 11, 9, 64, 0x80_0000, 0x400_0000, 0x1000_0000, 0x8000_0000, 0, 31_536_000),
    HeaderConfig(63_072_000, true, true, ""))

  const DEFAULT_SERVER := Server("", "", "", "", 64, 0, Walk.Memory, None, DEFAULT_POLICIES)

  // ---------------------------------------------------------------- one line

  function ReadStorage(v: string): Option<Walk.Storage> {
    var t := LowerAll(Trim(v));
    if t == "memory" || t == "mem" || t == "ram" then Some(Walk.Memory)
    else if t == "disk" then Some(Walk.OnDisk)
    else None
  }

  function SetServer(s: Server, k: ServerKey, v: string): Result<Server, Problem> {
    match k
    case Listen =>
      (match ParseListen(v)
       case None => Err(BadListen)
       case Some((host, port)) => Ok(s.(host := host, port := port)))
    case ListenHttp =>
      (match ParseListen(v)
       case None => Err(BadListen)
       case Some((host, port)) => Ok(s.(httpHost := host, httpPort := port)))
    case MaxTotalBytes =>
      (match ParseSize(v)
       case None => Err(BadValue)
       case Some(n) => Ok(s.(defaults := s.defaults.(tuning := s.defaults.tuning.(maxTotalBytes := n)))))
    case MaxConnsPerIp =>
      (match ParseUnsigned(Trim(v), USIZE_MAX)
       case None => Err(BadValue)
       case Some(n) => Ok(s.(maxConnsPerIp := n)))
    case MaxResponseSecs =>
      (match ParseDeadline(v)
       case None => Err(BadValue)
       case Some(n) => Ok(s.(maxResponseSecs := n)))
    case StorageKind =>
      (match ReadStorage(v)
       case None => Err(BadValue)
       case Some(kind) => Ok(s.(storage := kind)))
    case DiskCache => Ok(s.(diskCache := Some(Trim(v))))
  }

  /** A line outside every block. */
  function TopStep(s: Server, line: ConfigLine): Result<Server, Problem> {
    match line
    case RedirectLine(rest) => Err(if StartsWith(rest, "=") then FlatRedirect else RuleOutside)
    case Pair(OfServer(k), v) => SetServer(s, k, v)
    case Pair(Shared(k), v) =>
      (match ApplyShared(s.defaults, k, v)
       case Err(_) => Err(BadValue)
       case Ok(p) => Ok(s.(defaults := p)))
    case Pair(OfSite(_), _) => Err(SiteSetting)
    case Pair(Unknown, _) => Err(UnknownKey)
    case _ => Err(Malformed)
  }

  function PushRule(b: Block, rest: string): Result<Block, Problem> {
    match SplitOnce(rest, "->")
    case None => Err(NoArrow)
    case Some((left, right)) =>
      var pattern, target := Trim(left), Trim(right);
      if pattern == "" then Err(EmptyPattern)
      else match PushError(b.rules, pattern, target)
        case Some(e) => Err(BadRule(e))
        case None => Ok(b.(rules := Add(b.rules, Classify(pattern, target).1, target)))
  }

  function SetInBlock(b: Block, k: SiteKey, v: string): Result<Block, Problem> {
    match k
    case Root => Ok(b.(root := Some(v)))
    case Cert => Ok(b.(cert := Some(v)))
    case PrivateKey => Ok(b.(key := Some(v)))
    case ForceSsl => (match ParseBool(v) case None => Err(BadValue) case Some(on) => Ok(b.(forceSsl := on)))
    case CanonicalUrls => (match ParseBool(v) case None => Err(BadValue) case Some(on) => Ok(b.(canonicalUrls := on)))
    case RedirectKey => Err(UnknownSetting)
  }

  /** A line inside a block: an override is validated now, and applied at the end of the file. */
  function BlockStep(b: Block, line: ConfigLine): Result<Block, Problem> {
    match line
    case RedirectLine(rest) => if StartsWith(rest, "=") then Err(FlatRedirect) else PushRule(b, rest)
    case Pair(OfSite(k), v) => SetInBlock(b, k, v)
    case Pair(OfServer(_), _) => Err(ServerSetting)
    case Pair(Shared(k), v) =>
      if SharedValue(k, v).None? then Err(BadValue) else Ok(b.(overrides := b.overrides + [(k, v)]))
    case Pair(Unknown, _) => Err(UnknownSetting)
    case _ => Err(Malformed)
  }

  function NewBlock(hosts: seq<string>): Block {
    Block(hosts, None, None, None, true, false, NO_RULES, [])
  }

  /** The hosts of a block that a `site` line opens, outside every block. */
  function OpenBlock(rest: string): Result<seq<string>, Problem> {
    match OpenedHosts(rest)
    case None => Err(NoBlock)
    case Some(hosts) => if hosts == [] then Err(NoHosts) else Ok(hosts)
  }

  // ---------------------------------------------------------------- the one-pass machine

  /** What the loop over the lines updates; `openedAt` holds the line that each block opened at. */
  datatype State = State(server: Server, cur: Option<Block>, pending: seq<Block>, openedAt: seq<nat>)

  const START := State(DEFAULT_SERVER, None, [], [])

  function Closed(b: Block): Block {
    b.(rules := Finished(b.rules))
  }

  function Step(s: State, line: ConfigLine, n: nat): Result<State, Problem> {
    match line
    case Blank => Ok(s)
    case Close =>
      (match s.cur
       case None => Err(StrayClose)
       case Some(b) => Ok(s.(cur := None, pending := s.pending + [Closed(b)])))
    case SiteLine(rest) =>
      if StartsWith(rest, "=") then Err(FlatSite)
      else if s.cur.Some? then Err(NestedSite)
      else (match OpenBlock(rest)
            case Err(e) => Err(e)
            case Ok(hosts) => Ok(s.(cur := Some(NewBlock(hosts)), openedAt := s.openedAt + [n])))
    case _ =>
      match s.cur
      case Some(b) => (match BlockStep(b, line) case Err(e) => Err(e) case Ok(b') => Ok(s.(cur := Some(b'))))
      case None => (match TopStep(s.server, line) case Err(e) => Err(e) case Ok(sv) => Ok(s.(server := sv)))
  }

  /** The machine from state `s` over the lines from number `n` on; an error names its line. */
  function Machine(s: State, lines: seq<ConfigLine>, n: nat): Result<State, (nat, Problem)>
    decreases lines
  {
    if lines == [] then Ok(s)
    else match Step(s, lines[0], n)
      case Err(e) => Err((n, e))
      case Ok(s') => Machine(s', lines[1..], n + 1)
  }

  // ---------------------------------------------------------------- the end of the file

  function ApplyAll(p: Policies, overrides: seq<(SharedKey, string)>): Result<Policies, SharedKey>
    decreases overrides
  {
    if overrides == [] then Ok(p)
    else match ApplyShared(p, overrides[0].0, overrides[0].1)
      case Err(k) => Err(k)
      case Ok(p') => ApplyAll(p', overrides[1..])
  }

  predicate NoRules(r: Rules) {
    r.exact == map[] && r.prefix == [] && r.all.None?
  }

  function SiteOf(defaults: Policies, b: Block): Result<SiteConfig, Problem> {
    if b.cert.None? then Err(MissingCert)
    else if b.key.None? then Err(MissingKey)
    else if b.root.None? && NoRules(b.rules) then Err(NothingToServe)
    else match ApplyAll(defaults, b.overrides)
      case Err(_) => Err(BadValue)
      case Ok(p) => Ok(SiteConfig(b.hosts, b.root, b.cert.value, b.key.value, b.forceSsl, b.canonicalUrls, b.rules, p))
  }

  /** Every block resolved against the finished defaults; an error names its block. */
  function SitesOf(defaults: Policies, blocks: seq<Block>): Result<seq<SiteConfig>, (nat, Problem)> {
    if blocks == [] then Ok([])
    else
      var last := |blocks| - 1;
      match SitesOf(defaults, blocks[..last])
      case Err(e) => Err(e)
      case Ok(sites) =>
        match SiteOf(defaults, blocks[last])
        case Err(e) => Err((last, e))
        case Ok(site) => Ok(sites + [site])
  }

  function FileProblem(s: Server, blocks: seq<Block>): Option<Problem> {
    if s.host == "" || s.port == "" then Some(MissingListen)
    else if blocks == [] then Some(NoSites)
    else if s.storage == Walk.OnDisk && (s.diskCache.None? || s.diskCache.value == "") then Some(NoDiskCache)
    else None
  }

  /** The line number 0 stands for the file as a whole. */
  function Finish(s: State): Result<Config, (nat, Problem)> {
    if s.cur.Some? then Err((if s.openedAt == [] then 0 else s.openedAt[|s.openedAt| - 1], Unclosed))
    else if FileProblem(s.server, s.pending).Some? then Err((0, FileProblem(s.server, s.pending).value))
    else match SitesOf(s.server.defaults, s.pending)
      case Err((i, e)) => Err((if i < |s.openedAt| then s.openedAt[i] else 0, e))
      case Ok(sites) => Ok(Config(s.server, sites))
  }

  function Parse(lines: seq<ConfigLine>): Result<Config, (nat, Problem)> {
    match Machine(START, lines, 1)
    case Err(e) => Err(e)
    case Ok(s) => Finish(s)
  }

  /** The parser: one loop over the lines that updates the current block and the settings. */
  method ParseConfig(text: string) returns (r: Result<Config, (nat, Problem)>)
    ensures r == Parse(LinesOf(Split(text, "\n")))
  {
    var pieces := Split(text, "\n");
    ghost var all := LinesOf(pieces);
    var server, cur, pending := DEFAULT_SERVER, None, [];
    var openedAt: seq<nat> := [];
    assert all[0..] == all;
    for i := 0 to |pieces|
      invariant Machine(START, all, 1) == Machine(State(server, cur, pending, openedAt), all[i..], i + 1)
    {
      assert all[i..][0] == ReadLine(pieces[i]) && all[i..][1..] == all[i + 1..];
      var line := ReadLine(pieces[i]);
      if line.Close? {
        if cur.None? {
          return Err((i + 1, StrayClose));
        }
        pending := pending + [Closed(cur.value)];
        cur := None;
      } else if line.SiteLine? {
        if StartsWith(line.rest, "=") {
          return Err((i + 1, FlatSite));
        }
        if cur.Some? {
          return Err((i + 1, NestedSite));
        }
        var hosts := OpenBlock(line.rest);
        if hosts.Err? {
          return Err((i + 1, hosts.error));
        }
        cur, openedAt := Some(NewBlock(hosts.value)), openedAt + [i + 1];
      } else if !line.Blank? {
        if cur.Some? {
          var b := BlockStep(cur.value, line);
          if b.Err? {
            return Err((i + 1, b.error));
          }
          cur := Some(b.value);
        } else {
          var sv := TopStep(server, line);
          if sv.Err? {
            return Err((i + 1, sv.error));
          }
          server := sv.value;
        }
      }
    }
    return Finish(State(server, cur, pending, openedAt));
  }

  // ---------------------------------------------------------------- the two-pass meaning

  datatype SiteText = SiteText(hosts: seq<string>, body: seq<ConfigLine>)

  /** A file taken apart: its top-level lines, and its site blocks. */
  datatype Doc = Doc(tops: seq<ConfigLine>, sites: seq<SiteText>)

  /** `None` when the blocks do not open and close properly. */
  function Arrange(lines: seq<ConfigLine>, current: Option<SiteText>): Option<Doc>
    decreases lines
  {
    if lines == [] then (if current.None? then Some(Doc([], [])) else None)
    else match lines[0]
      case Blank => Arrange(lines[1..], current)
      case Close =>
        (match current
         case None => None
         case Some(site) =>
           match Arrange(lines[1..], None)
           case None => None
           case Some(d) => Some(d.(sites := [site] + d.sites)))
      case SiteLine(rest) =>
        if StartsWith(rest, "=") || current.Some? || OpenBlock(rest).Err? then None
        else Arrange(lines[1..], Some(SiteText(OpenBlock(rest).value, [])))
      case line =>
        match current
        case Some(site) => Arrange(lines[1..], Some(site.(body := site.body + [line])))
        case None =>
          match Arrange(lines[1..], None)
          case None => None
          case Some(d) => Some(d.(tops := [line] + d.tops))
  }

  /** The first pass: the top-level lines give the defaults. */
  function Defaults(s: Server, tops: seq<ConfigLine>): Option<Server>
    decreases tops
  {
    if tops == [] then Some(s)
    else match TopStep(s, tops[0])
      case Err(_) => None
      case Ok(s') => Defaults(s', tops[1..])
  }

  function ReadBody(b: Block, body: seq<ConfigLine>): Option<Block>
    decreases body
  {
    if body == [] then Some(b)
    else match ReadBody(b, body[..|body| - 1])
      case None => None
      case Some(b') => match BlockStep(b', body[|body| - 1]) case Err(_) => None case Ok(b'') => Some(b'')
  }

  function BlockOf(site: SiteText): Option<Block> {
    match ReadBody(NewBlock(site.hosts), site.body)
    case None => None
    case Some(b) => Some(Closed(b))
  }

  function Blocks(sites: seq<SiteText>): Option<seq<Block>> {
    if sites == [] then Some([])
    else match BlockOf(sites[0])
      case None => None
      case Some(b) => match Blocks(sites[1..]) case None => None case Some(bs) => Some([b] + bs)
  }

  /** The second pass: each site is the defaults with its own block applied, whatever else is in the file. */
  function DocMeaning(d: Doc): Option<Config> {
    match Defaults(DEFAULT_SERVER, d.tops)
    case None => None
    case Some(s) =>
      match Blocks(d.sites)
      case None => None
      case Some(blocks) =>
        if FileProblem(s, blocks).Some? then None
        else match SitesOf(s.defaults, blocks)
          case Err(_) => None
          case Ok(sites) => Some(Config(s, sites))
  }

  function Meaning(lines: seq<ConfigLine>): Option<Config> {
    match Arrange(lines, None)
    case None => None
    case Some(d) => DocMeaning(d)
  }

  /** The block being read is its text so far. */
  predicate Reads(cur: Option<Block>, current: Option<SiteText>) {
    match current
    case None => cur.None?
    case Some(site) => cur.Some? && ReadBody(NewBlock(site.hosts), site.body) == cur
  }

  /** A block with an invalid line never means anything, whatever follows. */
  lemma {:induction false} BadBodyFails(lines: seq<ConfigLine>, site: SiteText)
    requires ReadBody(NewBlock(site.hosts), site.body).None?
    ensures Arrange(lines, Some(site)).Some? ==> Blocks(Arrange(lines, Some(site)).value.sites).None?
    decreases lines
  {
    if lines != [] {
      match lines[0] {
        case Blank => BadBodyFails(lines[1..], site);
        case Close =>
        case SiteLine(_) =>
        case line =>
          var longer := site.(body := site.body + [line]);
          assert longer.body[..|longer.body| - 1] == site.body;
          BadBodyFails(lines[1..], longer);
      }
    }
  }

  /** What a run adds to the settings and blocks it starts from, in terms of the text that is left. */
  predicate Completes(server: Server, pending: seq<Block>, d: Option<Doc>, end: Result<State, (nat, Problem)>) {
    if d.Some? && Defaults(server, d.value.tops).Some? && Blocks(d.value.sites).Some? then
      && end.Ok? && end.value.cur.None?
      && end.value.server == Defaults(server, d.value.tops).value
      && end.value.pending == pending + Blocks(d.value.sites).value
    else
      end.Err? || end.value.cur.Some?
  }

  lemma CompletesBlock(server: Server, pending: seq<Block>, b: Block, site: SiteText, rest: Option<Doc>, end: Result<State, (nat, Problem)>)
    requires Reads(Some(b), Some(site))
    requires Completes(server, pending + [Closed(b)], rest, end)
    ensures Completes(server, pending, match rest case None => None case Some(d) => Some(d.(sites := [site] + d.sites)), end)
  {
    if rest.Some? {
      assert ([site] + rest.value.sites)[1..] == rest.value.sites;
      if Blocks(rest.value.sites).Some? {
        assert pending + [Closed(b)] + Blocks(rest.value.sites).value
            == pending + ([Closed(b)] + Blocks(rest.value.sites).value);
      }
    }
  }

  lemma CompletesTop(server: Server, pending: seq<Block>, line: ConfigLine, rest: Option<Doc>, end: Result<State, (nat, Problem)>)
    requires match TopStep(server, line) case Err(_) => end.Err? case Ok(sv) => Completes(sv, pending, rest, end)
    ensures Completes(server, pending, match rest case None => None case Some(d) => Some(d.(tops := [line] + d.tops)), end)
  {
    if rest.Some? {
      assert ([line] + rest.value.tops)[1..] == rest.value.tops;
    }
  }

  lemma ReadOneMore(site: SiteText, line: ConfigLine, longer: SiteText, b: Block)
    requires Reads(Some(b), Some(site)) && longer == site.(body := site.body + [line])
    ensures match BlockStep(b, line)
            case Ok(b') => Reads(Some(b'), Some(longer))
            case Err(_) => ReadBody(NewBlock(longer.hosts), longer.body).None?
  {
    assert longer.body[..|longer.body| - 1] == site.body;
  }

  lemma {:induction false} PassesAgree(s: State, current: Option<SiteText>, lines: seq<ConfigLine>, n: nat)
    requires Reads(s.cur, current)
    ensures Completes(s.server, s.pending, Arrange(lines, current), Machine(s, lines, n))
    decreases lines
  {
    if lines == [] {
      return;
    }
    var line, rest, end := lines[0], lines[1..], Machine(s, lines, n);
    if line.Blank? {
      PassesAgree(s, current, rest, n + 1);
    } else if line.Close? {
      if current.Some? {
        PassesAgree(s.(cur := None, pending := s.pending + [Closed(s.cur.value)]), None, rest, n + 1);
        CompletesBlock(s.server, s.pending, s.cur.value, current.value, Arrange(rest, None), end);
      }
    } else if line.SiteLine? {
      var hosts := OpenBlock(line.rest);
      if !StartsWith(line.rest, "=") && current.None? && hosts.Ok? {
        PassesAgree(s.(cur := Some(NewBlock(hosts.value)), openedAt := s.openedAt + [n]), Some(SiteText(hosts.value, [])), rest, n + 1);
      }
    } else if current.Some? {
      var longer := current.value.(body := current.value.body + [line]);
      ReadOneMore(current.value, line, longer, s.cur.value);
      var b := BlockStep(s.cur.value, line);
      if b.Ok? {
        PassesAgree(s.(cur := Some(b.value)), Some(longer), rest, n + 1);
      } else {
        BadBodyFails(rest, longer);
      }
    } else {
      var sv := TopStep(s.server, line);
      if sv.Ok? {
        PassesAgree(s.(server := sv.value), None, rest, n + 1);
      }
      CompletesTop(s.server, s.pending, line, Arrange(rest, None), end);
    }
  }

  /** The one-pass parser accepts exactly the files that have a two-pass meaning, with that meaning. */
  lemma OnePassIsTwoPass(lines: seq<ConfigLine>)
    ensures match Parse(lines) case Ok(c) => Meaning(lines) == Some(c) case Err(_) => Meaning(lines) == None
  {
    PassesAgree(START, None, lines, 1);
    var d := Arrange(lines, None);
    if d.Some? && Blocks(d.value.sites).Some? {
      assert [] + Blocks(d.value.sites).value == Blocks(d.value.sites).value;
    }
  }

  // ---------------------------------------------------------------- order does not matter across levels

  lemma {:induction false} ArrangeAppend(a: seq<ConfigLine>, b: seq<ConfigLine>, current: Option<SiteText>)
    requires Arrange(a, current).Some?
    ensures Arrange(a + b, current) ==
            match Arrange(b, None)
            case None => None
            case Some(d) => Some(Joined(Arrange(a, current).value, d))
    decreases a
  {
    if a == [] {
      assert a + b == b;
      JoinNothing(Arrange(b, None));
    } else {
      assert (a + b)[1..] == a[1..] + b && (a + b)[0] == a[0];
      var line := a[0];
      if line.Blank? {
        ArrangeAppend(a[1..], b, current);
      } else if line.Close? {
        ArrangeAppend(a[1..], b, None);
        JoinSite(current.value, Arrange(a[1..], None).value, Arrange(b, None));
      } else if line.SiteLine? {
        ArrangeAppend(a[1..], b, Some(SiteText(OpenBlock(line.rest).value, [])));
      } else if current.Some? {
        ArrangeAppend(a[1..], b, Some(current.value.(body := current.value.body + [line])));
      } else {
        ArrangeAppend(a[1..], b, None);
        JoinTop(line, Arrange(a[1..], None).value, Arrange(b, None));
      }
    }
  }

  function Joined(a: Doc, b: Doc): Doc {
    Doc(a.tops + b.tops, a.sites + b.sites)
  }

  lemma JoinNothing(d: Option<Doc>)
    ensures d.Some? ==> Joined(Doc([], []), d.value) == d.value
  {
    if d.Some? {
      assert [] + d.value.tops == d.value.tops && [] + d.value.sites == d.value.sites;
    }
  }

  lemma JoinSite(site: SiteText, a: Doc, b: Option<Doc>)
    ensures b.Some? ==> var ab := Joined(a, b.value);
                        ab.(sites := [site] + ab.sites) == Joined(a.(sites := [site] + a.sites), b.value)
  {
    if b.Some? {
      assert [site] + (a.sites + b.value.sites) == [site] + a.sites + b.value.sites;
    }
  }

  lemma JoinTop(line: ConfigLine, a: Doc, b: Option<Doc>)
    ensures b.Some? ==> var ab := Joined(a, b.value);
                        ab.(tops := [line] + ab.tops) == Joined(a.(tops := [line] + a.tops), b.value)
  {
    if b.Some? {
      assert [line] + (a.tops + b.value.tops) == [line] + a.tops + b.value.tops;
    }
  }

  /** Two outcomes that differ at most in the error and its line. */
  predicate SameOutcome(a: Result<Config, (nat, Problem)>, b: Result<Config, (nat, Problem)>) {
    (a.Ok? <==> b.Ok?) && (a.Ok? ==> a == b)
  }

  predicate TopLine(line: ConfigLine) {
    !line.Blank? && !line.Close? && !line.SiteLine?
  }

  /** Whole site blocks, with blank lines at most between them. */
  predicate WholeBlocks(lines: seq<ConfigLine>) {
    Arrange(lines, None).Some? && Arrange(lines, None).value.tops == []
  }

  lemma ArrangeThree(x: seq<ConfigLine>, y: seq<ConfigLine>, z: seq<ConfigLine>, rest: seq<ConfigLine>)
    requires Arrange(x, None).Some? && Arrange(y, None).Some? && Arrange(z, None).Some?
    ensures Arrange(x + y + z + rest, None) ==
            match Arrange(rest, None)
            case None => None
            case Some(d) =>
              Some(Joined(Joined(Joined(Arrange(x, None).value, Arrange(y, None).value), Arrange(z, None).value), d))
  {
    ArrangeAppend(x, y, None);
    ArrangeAppend(x + y, z, None);
    ArrangeAppend(x + y + z, rest, None);
  }

  lemma OneTop(t: ConfigLine)
    requires TopLine(t)
    ensures Arrange([t], None) == Some(Doc([t], []))
  {
    var none: seq<ConfigLine> := [];
    assert [t][1..] == none && [t] + none == [t];
  }

  lemma SwapTop(a: Doc, t: ConfigLine, b: Doc, d: Doc)
    requires b.tops == []
    ensures Joined(Joined(Joined(a, Doc([t], [])), b), d) == Joined(Joined(Joined(a, b), Doc([t], [])), d)
  {
    var left, right := Joined(Joined(a, Doc([t], [])), b), Joined(Joined(a, b), Doc([t], []));
    assert left.tops == a.tops + [t] == right.tops;
    assert left.sites == a.sites + b.sites == right.sites;
  }

  /** Moving a top-level line across whole site blocks changes nothing but line numbers in errors. */
  lemma MoveTopLine(a: seq<ConfigLine>, t: ConfigLine, b: seq<ConfigLine>, rest: seq<ConfigLine>)
    requires Arrange(a, None).Some? && TopLine(t) && WholeBlocks(b)
    ensures SameOutcome(Parse(a + [t] + b + rest), Parse(a + b + [t] + rest))
  {
    OneTop(t);
    ArrangeThree(a, [t], b, rest);
    ArrangeThree(a, b, [t], rest);
    if Arrange(rest, None).Some? {
      SwapTop(Arrange(a, None).value, t, Arrange(b, None).value, Arrange(rest, None).value);
    }
    OnePassIsTwoPass(a + [t] + b + rest);
    OnePassIsTwoPass(a + b + [t] + rest);
  }

  // ---------------------------------------------------------------- sites are independent

  lemma {:induction false} BlocksAt(sites: seq<SiteText>, i: nat)
    requires Blocks(sites).Some? && i < |sites|
    ensures |Blocks(sites).value| == |sites| && BlockOf(sites[i]) == Some(Blocks(sites).value[i])
    decreases sites
  {
    if i > 0 {
      BlocksAt(sites[1..], i - 1);
    } else {
      BlocksCount(sites[1..]);
    }
  }

  lemma {:induction false} BlocksCount(sites: seq<SiteText>)
    requires Blocks(sites).Some?
    ensures |Blocks(sites).value| == |sites|
    decreases sites
  {
    if sites != [] {
      BlocksCount(sites[1..]);
    }
  }

  lemma {:induction false} SitesAt(defaults: Policies, blocks: seq<Block>)
    requires SitesOf(defaults, blocks).Ok?
    ensures |SitesOf(defaults, blocks).value| == |blocks|
    ensures forall i :: 0 <= i < |blocks| ==> SiteOf(defaults, blocks[i]) == Ok(SitesOf(defaults, blocks).value[i])
    decreases |blocks|
  {
    if blocks != [] {
      SitesAt(defaults, blocks[..|blocks| - 1]);
    }
  }

  /** Site `i` of a parsed file is its own block applied to the defaults, whatever the other blocks say. */
  lemma SiteIsItsBlock(lines: seq<ConfigLine>, d: Doc, c: Config, i: nat)
    requires Parse(lines) == Ok(c) && Arrange(lines, None) == Some(d) && i < |d.sites|
    ensures |c.sites| == |d.sites| && Defaults(DEFAULT_SERVER, d.tops) == Some(c.server)
    ensures BlockOf(d.sites[i]).Some? && SiteOf(c.server.defaults, BlockOf(d.sites[i]).value) == Ok(c.sites[i])
  {
    OnePassIsTwoPass(lines);
    var blocks := Blocks(d.sites).value;
    BlocksCount(d.sites);
    BlocksAt(d.sites, i);
    SitesAt(c.server.defaults, blocks);
  }

  /** The same block under the same top-level lines means the same site in any two files. */
  lemma SitesAreIndependent(lines1: seq<ConfigLine>, lines2: seq<ConfigLine>, d1: Doc, d2: Doc, c1: Config, c2: Config, i: nat, j: nat)
    requires Parse(lines1) == Ok(c1) && Arrange(lines1, None) == Some(d1) && i < |d1.sites|
    requires Parse(lines2) == Ok(c2) && Arrange(lines2, None) == Some(d2) && j < |d2.sites|
    requires d1.tops == d2.tops && d1.sites[i] == d2.sites[j]
    ensures |c1.sites| == |d1.sites| && |c2.sites| == |d2.sites|
    ensures c1.server == c2.server && c1.sites[i] == c2.sites[j]
  {
    SiteIsItsBlock(lines1, d1, c1, i);
    SiteIsItsBlock(lines2, d2, c2, j);
  }

  // ---------------------------------------------------------------- what a site's settings are

  /** The value of the last line for `k`, if there is one. */
  function LastLine(lines: seq<ConfigLine>, k: SharedKey): Option<string> {
    if lines == [] then None
    else match lines[|lines| - 1]
      case Pair(Shared(j), v) => if j == k then Some(v) else LastLine(lines[..|lines| - 1], k)
      case _ => LastLine(lines[..|lines| - 1], k)
  }

  /** What a line sets, or else what was there. */
  function Given(v: Option<string>, k: SharedKey, otherwise: Value): Value {
    if v.Some? && SharedValue(k, v.value).Some? then SharedValue(k, v.value).value else otherwise
  }

  lemma AppliedSetting(p: Policies, j: SharedKey, v: string, k: SharedKey)
    requires SharedValue(j, v).Some?
    ensures ApplyShared(p, j, v).Ok?
    ensures Get(ApplyShared(p, j, v).value, k) == if j == k then Given(Some(v), k, Get(p, k)) else Get(p, k)
    ensures ApplyShared(p, j, v).value.tuning.maxTotalBytes == p.tuning.maxTotalBytes
  {
    SharedValueFits(j, v);
    SetThenGet(p, j, SharedValue(j, v).value, k);
  }

  function LastOverride(overrides: seq<(SharedKey, string)>, k: SharedKey): Option<string> {
    if overrides == [] then None
    else
      var (j, v) := overrides[|overrides| - 1];
      if j == k then Some(v) else LastOverride(overrides[..|overrides| - 1], k)
  }

  predicate AllValid(overrides: seq<(SharedKey, string)>) {
    forall i :: 0 <= i < |overrides| ==> SharedValue(overrides[i].0, overrides[i].1).Some?
  }

  lemma {:induction false} ApplyAllSnoc(p: Policies, overrides: seq<(SharedKey, string)>, last: (SharedKey, string))
    ensures ApplyAll(p, overrides + [last]) ==
            match ApplyAll(p, overrides) case Err(k) => Err(k) case Ok(q) => ApplyShared(q, last.0, last.1)
    decreases overrides
  {
    if overrides == [] {
      assert [last][1..] == [];
    } else {
      assert (overrides + [last])[1..] == overrides[1..] + [last];
      match ApplyShared(p, overrides[0].0, overrides[0].1) {
        case Ok(q) => ApplyAllSnoc(q, overrides[1..], last);
        case Err(_) =>
      }
    }
  }

  lemma LastOneWins(init: seq<(SharedKey, string)>, last: (SharedKey, string), k: SharedKey, before: Value, between: Value, after: Value)
    requires SharedValue(last.0, last.1).Some? && between == Given(LastOverride(init, k), k, before)
    requires after == if last.0 == k then Given(Some(last.1), k, between) else between
    ensures after == Given(LastOverride(init + [last], k), k, before)
  {
    assert (init + [last])[..|init|] == init;
  }

  /** Applying the overrides succeeds, leaves `k` as its last override says, and keeps the budget. */
  predicate LastWins(p: Policies, overrides: seq<(SharedKey, string)>, k: SharedKey) {
    var r := ApplyAll(p, overrides);
    && r.Ok? && Get(r.value, k) == Given(LastOverride(overrides, k), k, Get(p, k))
    && r.value.tuning.maxTotalBytes == p.tuning.maxTotalBytes
  }

  lemma OneMoreOverride(p: Policies, init: seq<(SharedKey, string)>, last: (SharedKey, string), k: SharedKey)
    requires LastWins(p, init, k) && SharedValue(last.0, last.1).Some?
    ensures LastWins(p, init + [last], k)
  {
    var q := ApplyAll(p, init).value;
    ApplyAllSnoc(p, init, last);
    AppliedSetting(q, last.0, last.1, k);
    LastOneWins(init, last, k, Get(p, k), Get(q, k), Get(ApplyShared(q, last.0, last.1).value, k));
  }

  /** The deferred pass over validated overrides cannot fail; the last override of a key wins. */
  lemma {:induction false} OverridesWin(p: Policies, overrides: seq<(SharedKey, string)>, k: SharedKey)
    requires AllValid(overrides)
    ensures LastWins(p, overrides, k)
    decreases |overrides|
  {
    if overrides != [] {
      var init, last := overrides[..|overrides| - 1], overrides[|overrides| - 1];
      ValidParts(overrides, init, last);
      OverridesWin(p, init, k);
      OneMoreOverride(p, init, last, k);
    }
  }

  lemma ValidParts(overrides: seq<(SharedKey, string)>, init: seq<(SharedKey, string)>, last: (SharedKey, string))
    requires AllValid(overrides) && overrides != []
    requires init == overrides[..|overrides| - 1] && last == overrides[|overrides| - 1]
    ensures overrides == init + [last] && AllValid(init) && SharedValue(last.0, last.1).Some?
  {
  }

  function RuleLine(line: ConfigLine): Option<(string, string)> {
    match line
    case RedirectLine(rest) =>
      (match SplitOnce(rest, "->") case None => None case Some((left, right)) => Some((Trim(left), Trim(right))))
    case _ => None
  }

  /** The rules that the lines of a block push, in order. */
  function RulesIn(body: seq<ConfigLine>): seq<(string, string)> {
    if body == [] then []
    else
      var last := RuleLine(body[|body| - 1]);
      RulesIn(body[..|body| - 1]) + if last.Some? then [last.value] else []
  }

  /** What the lines of a block leave in it: valid overrides, and exactly its rules. */
  ghost predicate BodyRead(b: Block, body: seq<ConfigLine>) {
    && AllValid(b.overrides)
    && (forall k :: LastOverride(b.overrides, k) == LastLine(body, k))
    && PushAll(RulesIn(body)) == Some(b.rules)
  }

  /** The override that a line adds to its block. */
  function OverrideIn(line: ConfigLine): seq<(SharedKey, string)> {
    match line
    case Pair(Shared(k), v) => [(k, v)]
    case _ => []
  }

  lemma StepOverrides(b: Block, line: ConfigLine, b': Block)
    requires BlockStep(b, line) == Ok(b')
    ensures b'.overrides == b.overrides + OverrideIn(line) && AllValid(OverrideIn(line))
  {
    if line.Pair? && line.key.Shared? {
      assert b'.overrides == b.overrides + [(line.key.shared, line.value)];
    } else {
      OtherLineKeepsOverrides(b, line, b');
      assert b.overrides + [] == b.overrides;
    }
  }

  lemma OtherLineKeepsOverrides(b: Block, line: ConfigLine, b': Block)
    requires !(line.Pair? && line.key.Shared?) && BlockStep(b, line) == Ok(b')
    ensures b'.overrides == b.overrides && OverrideIn(line) == []
  {
  }

  lemma LastOverrideAfter(overrides: seq<(SharedKey, string)>, body: seq<ConfigLine>, line: ConfigLine, k: SharedKey)
    requires LastOverride(overrides, k) == LastLine(body, k)
    ensures LastOverride(overrides + OverrideIn(line), k) == LastLine(body + [line], k)
  {
    assert (body + [line])[..|body|] == body;
    if line.Pair? && line.key.Shared? {
      assert (overrides + OverrideIn(line))[..|overrides|] == overrides;
    } else {
      assert overrides + OverrideIn(line) == overrides;
    }
  }

  lemma ValidAfter(a: seq<(SharedKey, string)>, b: seq<(SharedKey, string)>)
    requires AllValid(a) && AllValid(b)
    ensures AllValid(a + b)
  {
  }

  lemma BodyStep(b: Block, body: seq<ConfigLine>, line: ConfigLine, b': Block)
    requires BodyRead(b, body) && BlockStep(b, line) == Ok(b')
    ensures AllValid(b'.overrides) && forall k :: LastOverride(b'.overrides, k) == LastLine(body + [line], k)
  {
    StepOverrides(b, line, b');
    ValidAfter(b.overrides, OverrideIn(line));
    forall k ensures LastOverride(b'.overrides, k) == LastLine(body + [line], k) {
      LastOverrideAfter(b.overrides, body, line, k);
    }
  }

  lemma PushAllSnoc(rules: seq<(string, string)>, r: Rules, rule: (string, string))
    requires PushAll(rules) == Some(r) && PushError(r, rule.0, rule.1).None?
    ensures PushAll(rules + [rule]) == Some(Add(r, Classify(rule.0, rule.1).1, rule.1))
  {
    assert (rules + [rule])[..|rules|] == rules;
  }

  lemma PushedRule(b: Block, line: ConfigLine, b': Block)
    requires line.RedirectLine? && BlockStep(b, line) == Ok(b')
    ensures RuleLine(line).Some?
    ensures var (pattern, target) := RuleLine(line).value;
            PushError(b.rules, pattern, target).None? && b'.rules == Add(b.rules, Classify(pattern, target).1, target)
  {
  }

  lemma RulesInSnoc(body: seq<ConfigLine>, line: ConfigLine)
    ensures RulesIn(body + [line]) == RulesIn(body) + if RuleLine(line).Some? then [RuleLine(line).value] else []
  {
    assert (body + [line])[..|body|] == body;
  }

  lemma OtherLineKeepsRules(b: Block, line: ConfigLine, b': Block)
    requires !line.RedirectLine? && BlockStep(b, line) == Ok(b')
    ensures b'.rules == b.rules && RuleLine(line).None?
  {
  }

  lemma BodyRules(b: Block, body: seq<ConfigLine>, line: ConfigLine, b': Block)
    requires PushAll(RulesIn(body)) == Some(b.rules) && BlockStep(b, line) == Ok(b')
    ensures PushAll(RulesIn(body + [line])) == Some(b'.rules)
  {
    RulesInSnoc(body, line);
    if line.RedirectLine? {
      PushedRule(b, line, b');
      PushAllSnoc(RulesIn(body), b.rules, RuleLine(line).value);
    } else {
      OtherLineKeepsRules(b, line, b');
      assert RulesIn(body) + [] == RulesIn(body);
    }
  }

  lemma {:induction false} BodyIsRead(hosts: seq<string>, body: seq<ConfigLine>)
    requires ReadBody(NewBlock(hosts), body).Some?
    ensures BodyRead(ReadBody(NewBlock(hosts), body).value, body)
    decreases |body|
  {
    if body != [] {
      var init, line := body[..|body| - 1], body[|body| - 1];
      BodyIsRead(hosts, init);
      assert body == init + [line];
      var b := ReadBody(NewBlock(hosts), init).value;
      BodyStep(b, init, line, BlockStep(b, line).value);
      BodyRules(b, init, line, BlockStep(b, line).value);
    }
  }

  lemma {:induction false} DefaultsSnoc(s: Server, tops: seq<ConfigLine>, line: ConfigLine)
    ensures Defaults(s, tops + [line]) ==
            match Defaults(s, tops)
            case None => None
            case Some(s') => match TopStep(s', line) case Err(_) => None case Ok(s'') => Some(s'')
    decreases tops
  {
    if tops == [] {
      assert [line][1..] == [];
    } else {
      assert (tops + [line])[1..] == tops[1..] + [line];
      if TopStep(s, tops[0]).Ok? {
        DefaultsSnoc(TopStep(s, tops[0]).value, tops[1..], line);
      }
    }
  }

  lemma TopSetting(s: Server, line: ConfigLine, k: SharedKey)
    requires TopStep(s, line).Ok?
    ensures line.Pair? && line.key == Shared(k) ==> SharedValue(k, line.value).Some?
    ensures Get(TopStep(s, line).value.defaults, k) ==
            if line.Pair? && line.key == Shared(k) then Given(Some(line.value), k, Get(s.defaults, k)) else Get(s.defaults, k)
  {
    if line.Pair? && line.key.Shared? {
      AppliedSetting(s.defaults, line.key.shared, line.value, k);
    }
  }

  lemma LastTopWins(init: seq<ConfigLine>, line: ConfigLine, k: SharedKey, before: Value, between: Value, after: Value)
    requires between == Given(LastLine(init, k), k, before)
    requires line.Pair? && line.key == Shared(k) ==> SharedValue(k, line.value).Some?
    requires after == if line.Pair? && line.key == Shared(k) then Given(Some(line.value), k, between) else between
    ensures after == Given(LastLine(init + [line], k), k, before)
  {
    assert (init + [line])[..|init|] == init;
  }

  lemma {:induction false} TopsWin(tops: seq<ConfigLine>, k: SharedKey)
    requires Defaults(DEFAULT_SERVER, tops).Some?
    ensures Get(Defaults(DEFAULT_SERVER, tops).value.defaults, k) == Given(LastLine(tops, k), k, Get(DEFAULT_POLICIES, k))
    decreases |tops|
  {
    if tops != [] {
      var init, line := tops[..|tops| - 1], tops[|tops| - 1];
      DefaultsSnoc(DEFAULT_SERVER, init, line);
      assert tops == init + [line];
      TopsWin(init, k);
      var s := Defaults(DEFAULT_SERVER, init).value;
      TopSetting(s, line, k);
      LastTopWins(init, line, k, Get(DEFAULT_POLICIES, k), Get(s.defaults, k), Get(TopStep(s, line).value.defaults, k));
    }
  }

  /**
   Every shared setting of every site: the last line for it in the site's own block, else the last
   top-level line for it wherever it stands, else the default. The shared budget is the server's.
   */
  lemma EffectiveSetting(lines: seq<ConfigLine>, d: Doc, c: Config, i: nat, k: SharedKey)
    requires Parse(lines) == Ok(c) && Arrange(lines, None) == Some(d) && i < |d.sites| == |c.sites|
    ensures Get(c.sites[i].policies, k) ==
            Given(LastLine(d.sites[i].body, k), k, Given(LastLine(d.tops, k), k, Get(DEFAULT_POLICIES, k)))
    ensures c.sites[i].policies.tuning.maxTotalBytes == c.server.defaults.tuning.maxTotalBytes
  {
    SiteIsItsBlock(lines, d, c, i);
    var site := d.sites[i];
    BodyIsRead(site.hosts, site.body);
    var b := ReadBody(NewBlock(site.hosts), site.body).value;
    OverridesWin(c.server.defaults, b.overrides, k);
    TopsWin(d.tops, k);
  }

  /** The deferred pass never fails: whatever state the machine reaches, its pending overrides apply to any defaults. */
  lemma {:induction false} SecondPassCannotFail(s: State, lines: seq<ConfigLine>, n: nat, p: Policies)
    requires OverridesValid(s) && Machine(s, lines, n).Ok?
    ensures OverridesValid(Machine(s, lines, n).value)
    ensures forall i :: 0 <= i < |Machine(s, lines, n).value.pending| ==>
                          ApplyAll(p, Machine(s, lines, n).value.pending[i].overrides).Ok?
    decreases lines
  {
    if lines == [] {
      forall i | 0 <= i < |s.pending| ensures ApplyAll(p, s.pending[i].overrides).Ok? {
        OverridesWin(p, s.pending[i].overrides, Csp);
      }
    } else {
      var s' := Step(s, lines[0], n).value;
      StepKeepsValid(s, lines[0], n, s');
      SecondPassCannotFail(s', lines[1..], n + 1, p);
    }
  }

  predicate OverridesValid(s: State) {
    && (s.cur.Some? ==> AllValid(s.cur.value.overrides))
    && forall i :: 0 <= i < |s.pending| ==> AllValid(s.pending[i].overrides)
  }

  lemma StepKeepsValid(s: State, line: ConfigLine, n: nat, s': State)
    requires OverridesValid(s) && Step(s, line, n) == Ok(s')
    ensures OverridesValid(s')
  {
    if TopLine(line) && s.cur.Some? {
      var b' := BlockStep(s.cur.value, line).value;
      StepOverrides(s.cur.value, line, b');
      ValidAfter(s.cur.value.overrides, OverrideIn(line));
      BlockKept(s, b', s');
    }
  }

  lemma BlockKept(s: State, b: Block, s': State)
    requires OverridesValid(s) && AllValid(b.overrides) && s' == s.(cur := Some(b))
    ensures OverridesValid(s')
  {
  }

  // ---------------------------------------------------------------- what the server may rely on

  lemma CspIsOneLine(v: Option<string>, otherwise: Value)
    requires otherwise.Text? && OneLine(otherwise.s)
    ensures Given(v, Csp, otherwise).Text? && OneLine(Given(v, Csp, otherwise).s)
  {
  }

  /** Whatever the file says, the header block of every site is whole header lines. */
  lemma ParsedHeadersAreLines(lines: seq<ConfigLine>, d: Doc, c: Config, i: nat)
    requires Parse(lines) == Ok(c) && Arrange(lines, None) == Some(d) && i < |d.sites| == |c.sites|
    ensures HeaderLines(SecurityLines(c.sites[i].policies.headers))
  {
    EffectiveSetting(lines, d, c, i, Csp);
    CspIsOneLine(LastLine(d.tops, Csp), Get(DEFAULT_POLICIES, Csp));
    CspIsOneLine(LastLine(d.sites[i].body, Csp), Given(LastLine(d.tops, Csp), Csp, Get(DEFAULT_POLICIES, Csp)));
    SecurityLinesAreLines(c.sites[i].policies.headers);
  }

  lemma SoundRules(rules: seq<(string, string)>, r: Rules)
    requires PushAll(rules) == Some(r)
    ensures TargetsOk(Finished(r))
  {
    PushedTargetsOk(rules);
    FinishKeepsTargets(r);
  }

  lemma RulesOfSite(defaults: Policies, b: Block, site: SiteConfig)
    requires SiteOf(defaults, Closed(b)) == Ok(site)
    ensures site.rules == Finished(b.rules)
  {
  }

  /** The rules of every site are those of its block, pushed in order and sorted, with sound targets. */
  lemma ParsedRules(lines: seq<ConfigLine>, d: Doc, c: Config, i: nat)
    requires Parse(lines) == Ok(c) && Arrange(lines, None) == Some(d) && i < |d.sites| == |c.sites|
    ensures PushAll(RulesIn(d.sites[i].body)).Some?
    ensures c.sites[i].rules == Finished(PushAll(RulesIn(d.sites[i].body)).value) && TargetsOk(c.sites[i].rules)
  {
    SiteIsItsBlock(lines, d, c, i);
    BodyIsRead(d.sites[i].hosts, d.sites[i].body);
    var b := ReadBody(NewBlock(d.sites[i].hosts), d.sites[i].body).value;
    RulesOfSite(c.server.defaults, b, c.sites[i]);
    SoundRules(RulesIn(d.sites[i].body), b.rules);
  }
}
