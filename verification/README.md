# bare-server: a verified model

A Dafny model of bare-server, a static web server that answers every request from tables it
precomputes at boot. Each module follows one part of the server:

| file | part of the server |
|---|---|
| `Bytes.dfy` | byte strings, searches, decimal numbers, shared by all |
| `Connection.dfy` | the keep-alive loop of a connection, chunk by chunk, and the simple form it refines |
| `RequestHead.dfy` | strict framing and the single pass over a request head |
| `PercentCoding.dfy` | percent coding of paths, UTF-8 validity |
| `Redirects.dfy`, `RedirectRules.dfy` | redirect templates, the loop check, rule sets and their resolution |
| `Responses.dfy`, `Printers.dfy` | header blocks, a client that reads responses back, every response printer |
| `Entries.dfy`, `Walk.dfy` | cache entries in memory and on disk, serving them, building a cache from a tree |
| `Budget.dfy`, `Boot.dfy` | the byte budget over a tree walk, over boot and over hot reloads |
| `Routing.dfy`, `Hops.dfy` | from request to action; where redirects land and how many there can be |
| `Server.dfy`, `Runtime.dfy` | whole requests and connections; from an accepted config to a table they can rely on |
| `Progress.dfy` | the socket wrapper that enforces deadlines and a minimum rate |
| `Limits.dfy` | the connection semaphore and the per-address limiter, over all interleavings |
| `Watcher.dfy` | the content watcher as a machine that interleaves with edits |
| `ConfigLines.dfy`, `ConfigFile.dfy` | the config parser and its two-pass meaning |

Code that the server writes as loops or objects (the connection loop, the header pass, the coders,
the tree walk, the limiters, the rule set, the config loop) is imperative here too, and each such
method is proved equal to a specification function or to the property it is for. The laws are
lemmas about those functions. Concurrency is modelled as step machines whose runs are arbitrary
lists of steps.

The gzip and brotli encoders, the content hash and the MIME table are parameters of a site's
policy; the clock, the sizes of socket and file reads, the content of a directory and the live read
of an ACME token are parameters of the methods that use them.

## Where the code differs from its comments

The model follows the code.

- A HEAD request that is not UTF-8 or not strictly framed is answered by a 400 with a body, because
  the method is not read before that answer. For the same reason a HEAD that is too large gets a 431
  with a body, and a HEAD that is not complete in time a 408 with a body. A client that reads it as the
  answer to a HEAD finds the body left over (`Server.HandleTruthful`, `Server.StreamIsSelfDelimiting`
  and `Server.TimedOutStream` state it exactly, `Server.StrayHeadLeavesBody` and
  `Server.OversizedHeadLeavesBody` give inputs).
- The canonical and the directory redirect can lead to a 400: they lengthen the path, and a path of
  1024 bytes or more is refused. A directory whose path has 1023 bytes is sent to such a path
  (`Hops.LongDirectoryIsRefused`), and non-ASCII paths triple when they are encoded. The redirects
  also miss their document when the ACME prefix claims their target (`Hops.AcmeFoldIsLost`), and when
  the host is a bracketed IPv6 literal, whose brackets no Location puts back
  (`Hops.BracketedHostIsLost`). `Hops.FoldServesDocument` and `Hops.DirServesIndex` state exactly when
  they land.
- The upgrade to HTTPS keeps the request only when its target holds no raw `#`
  (`Hops.UpgradeKeepsRequest`, `Hops.RawHashIsLost`).
- The field-line comment speaks of optional white space around a value; the code trims all Unicode
  white space, so `Content-Length: 0` followed by a no-break space declares no body
  (`RequestHead.WideSpaceIsTrimmed`).
- The loop check of a prefix rule refuses, besides the rules that send every matching path back to
  itself, a rule whose target spells the probe's own path (`Redirects.OneProbeDecides`,
  `Redirects.SpelledProbeIsRefused`).
- A refused duplicate of an exact redirect rule has already replaced the first rule's target
  (`RedirectRules.RuleSet.Push`); the config load fails, so nobody sees it.
- A `#` in a config line is examined only at its first occurrence, so a later ` # comment` on a line
  with an earlier `#` inside a value stays part of the value (`ConfigLines.Uncommented`).
- Permits that the per-address limiter gives out while its cap is 0 are never counted, even after the
  cap is switched on again (`Limits.ZeroLeavesUncounted`).

## Model

| member | source | states |
|---|---|---|
| Bytes.FindSpec | src/main.rs:648-653 | the search returns the first occurrence, and nothing exactly when there is none |
| Connection.AwaitHead | src/main.rs:1881-1932 | the resumed scan returns the verdict of a fresh scan of the buffer, loses no input, keeps the buffer within max(initial, 8191 + 4096) and scans at most four times its length; only without a verdict is the clock asked, every check before the last one passed, and it expires exactly when the last one found this head or the connection overdue |
| Connection.JudgeStable | src/main.rs:1890-1912 | a found head or a 431 verdict never changes when more bytes arrive |
| Connection.ServeRequest | src/main.rs:1870-1943 | one turn of the loop, in step with the simple form: it answers the next head and stands where that answer leads, or ends the connection; which clock readings it made follows from the input alone |
| Connection.ServeOver | src/main.rs:1858-1945 | the output is that of splitting the input at each first CRLFCRLF, whatever the chunking and prefill, on the whole input unless a deadline was over; every clock check up to the last answer passed, and if a deadline ended the connection it was found over by a check of the very turn that the answers sent lead to, with a 408 exactly when a head was awaited |
| Connection.OneEnding | src/main.rs:1858-1945 | the input, its chunks and the clock leave one way for a connection to end: at most one cut and one reading meet the contract of the loop, so no deadline is enforced late, early or not at all |
| Connection.ServeTwice | src/main.rs:1858-1945 | two deliveries of the same bytes that no deadline ended get identical output; whether one did is decided for each delivery as for the loop |
| Connection.AnswersCoverInput | src/main.rs:1937-1943 | the answered heads are a prefix of the input in order, at most 1000, and no complete head is left unanswered on an open connection |
| Connection.EachAnswer | src/main.rs:1889-1943 | every answer is the handler's for its own complete head, or the one 431 to input that is too large, and only the last one may close |
| Connection.QuotaCloses | src/main.rs:1937 | a connection that used its quota was closed by its last answer |
| RequestHead.WellFormedHead | src/main.rs:663-682 | accepts exactly the heads with only CRLF breaks and no control byte but HTAB |
| RequestHead.StrictLinesAreLenientLines | src/main.rs:655-682 | on an accepted head, splitting on CRLF and on LF with a dropped CR give the same lines |
| RequestHead.ReadHeaders | src/main.rs:1150-1218 | the loop over the field lines computes the fold of the header rules, or refuses |
| RequestHead.ReadConnection | src/main.rs:1202-1213 | the token loop computes the fold of the tokens |
| RequestHead.LastTokenWins | src/main.rs:1202-1213 | the last explicit token decides, whatever precedes it; without one the version's default stays |
| RequestHead.ReadHead | src/main.rs:1099-1225 | every check of the head in the order of the server |
| RequestHead.NothingHidden | src/main.rs:1108-1225 | an accepted head has at most one Host, no folded line and no declared body, even for a lenient reader |
| RequestHead.WideSpaceIsTrimmed | src/main.rs:1171-1178 | a length of zero followed by a no-break space declares no body |
| RequestHead.AcceptedHostIsOneLine | src/main.rs:1108-1225 | no accepted Host value holds half a line break |
| PercentCoding.PercentDecode | src/main.rs:753-776 | the index loop decodes as the recursive definition does, and refuses the same strings |
| PercentCoding.PercentEncodePath | src/main.rs:784-818 | the loop encodes byte by byte |
| PercentCoding.DecodeEncode | src/main.rs:742-818 | decode inverts encode exactly on the control-free byte strings |
| PercentCoding.NormalIsIdempotent | src/main.rs:742-818 | encode after decode is an idempotent normaliser that spells the same bytes |
| PercentCoding.NormalSeparates | src/main.rs:777-818 | two raw paths get one Location path exactly when they decode alike |
| PercentCoding.EncodeIsPathSafe | src/main.rs:784-818 | the encoding holds only bare path bytes and upper-case escapes |
| PercentCoding.PathSafeExcludes | src/main.rs:777-818 | a path-safe string has no `?`, `#`, space or control byte |
| Redirects.ExpandTemplate | src/config.rs:60-88 | the loop expands a template token by token |
| Redirects.OneProbeDecides | src/config.rs:90-110 | the probe refuses exactly the rules that loop for every capture, and those that spell the probe's path |
| Redirects.ProbeDecidesPrefixRule | src/config.rs:199-215 | for targets and prefixes without the text "probe", one probe decides all paths |
| Redirects.SpelledProbeIsRefused | src/config.rs:206-210 | the concrete family for which the probe refuses a rule that does not loop |
| Redirects.ProbeDecidesCatchAll | src/config.rs:183-187 | the same exact decision for the catch-all rule |
| RedirectRules.RuleSet.Push | src/config.rs:141-233 | accepts, refuses and stores a rule exactly as the checks in order say |
| RedirectRules.RuleSet.Finish | src/config.rs:234-238 | the prefix rules are the same ones, in descending length |
| RedirectRules.RuleSet.ResolvePath | src/config.rs:117-135 | answers exact, then the first matching prefix, then the catch-all |
| RedirectRules.ResolveAnswers | src/config.rs:117-135 | a finished set answers "exact, else longest matching prefix, else catch-all" of its set of rules |
| RedirectRules.PushAllAccepts | src/config.rs:141-233 | a list of rules is accepted iff each is valid and no pattern repeats, and then the set holds exactly those rules |
| RedirectRules.OrderDoesNotMatter | src/config.rs:117-238 | any permutation of a rule list is accepted alike and resolves every path alike |
| RedirectRules.ExpansionShape | src/config.rs:60-88 | an expansion is control-free, absolute iff its template is, else rooted, and has a query iff its template has |
| RedirectRules.PushedTargetsOk | src/config.rs:142-179 | every rule of an accepted set passed the target checks |
| RedirectRules.ResolvedShape | src/main.rs:1304-1323 | every Location that a rule yields is control-free and absolute or rooted |
| Responses.ReadFramed | src/cache.rs:415-442 | a client reads a framed response back exactly, whatever follows it |
| Responses.ReadAllDelimited | src/main.rs:988-996 | a stream of framed responses splits back into exactly those responses |
| Printers.SecurityLinesAreLines | src/config.rs:345-379 | the security header block is whole header lines, whatever the settings |
| Printers.LayoutFramed | src/cache.rs:415-442 | every response of the common layout is self-delimiting and its Connection field is true |
| Printers.StatusFramed | src/cache.rs:117-211 | all four forms of a precomputed status response are self-delimiting; only a HEAD drops the body |
| Printers.RedirectFramed | src/main.rs:1019-1037 | a 301 is self-delimiting for every one-line Location |
| Printers.NotModifiedFramed | src/main.rs:1420-1447 | a 304 is self-delimiting without a body |
| Printers.TokenFramed | src/main.rs:961-984 | the ACME answer is self-delimiting, with and without its body |
| Printers.FlipIsRebuild | src/main.rs:1490-1500 | replacing the first "Connection: keep-alive" equals rebuilding the header with close, for any later lines |
| Printers.OkHarmless | src/cache.rs:415-442 | nothing above the Connection line of a 200 can be mistaken for it |
| Entries.FirstEntryDecides | src/main.rs:702-725 | the first explicit Accept-Encoding entry for a coding decides, whatever wildcards there are |
| Entries.LastWildcardDecides | src/main.rs:702-725 | without one the last wildcard decides, else the coding is refused |
| Entries.OneTagMatches | src/main.rs:727-740 | a single If-None-Match tag, strong or weak, matches exactly the same tag |
| Entries.EchoedTagRevalidates | src/main.rs:1451-1482 | the tag of the 200 a request would get, sent back, gets the 304 of the same variant |
| Entries.StreamBody | src/main.rs:1577-1592 | the chunked copy writes the first `len` bytes of the file, however the reads are cut |
| Entries.ServeFromDisk | src/main.rs:1507-1570 | the streaming disk path writes what its specification says |
| Entries.SameEntryServesAlike | src/main.rs:1451-1592 | equal entries in either backend give equal bytes and keep-alive for every request |
| Entries.SnapshotPathsDiffer | src/cache.rs:511-531 | the map from (URL, encoding) to snapshot file is injective |
| Entries.WriteBodiesHolds | src/cache.rs:533-558 | after a file is snapshotted, each variant's file holds its body |
| Entries.WriteBodiesKeeps | src/cache.rs:511-558 | snapshotting one URL disturbs no other URL's bodies |
| Entries.MakeSame | src/cache.rs:484-558 | both builders make the same entry, up to where the bodies are |
| Entries.ServeMemFramed | src/main.rs:1451-1503 | every answer from a cached entry is the negotiated 200 or 304, self-delimiting, with a true Connection field |
| Walk.Builder.Walk | src/cache.rs:638-722 | the recursive walk updates table, total and snapshot as its specification says, fails exactly when that does, and holds the specified state where it stops |
| Walk.Builder.Store | src/cache.rs:693-719 | one file is built, charged and stored, or refused by the budget |
| Walk.ListingIndexes | src/cache.rs:638-722 | after a walk the table is exactly the documents of the tree, and every variant's file still holds its body |
| Walk.DiskNeverRefusesMore | src/cache.rs:674-717 | a tree that builds in memory builds on disk |
| Walk.StorageIsInvisible | src/cache.rs:484-722 | for every tree, tuning and request both backends serve the same bytes and connection state |
| Walk.ListingDocKeys | src/cache.rs:579-722 | every key of a built table is a path without empty or hidden segments |
| Budget.WalkCharges | src/cache.rs:630-722 | the running total never misses a byte that the table retains |
| Budget.WalkFits | src/cache.rs:674-717 | a walk that starts within the budget ends within it |
| Budget.StopFits | src/cache.rs:674-717 | in memory storage a walk is within the budget wherever it stops, and the total covers the table it stops with |
| Budget.ListingExact | src/cache.rs:638-722 | with distinct names the total grows by exactly the retained bytes of the new entries |
| Boot.BuildSite | src/main.rs:2089-2119 | one site's cache and new total, or the state in which its build stopped |
| Boot.AddHosts | src/main.rs:2131-2135 | registers names in order and fails at the first duplicate |
| Boot.HostsAddedMeans | src/main.rs:2131-2135 | after success all old names stay, the new ones map to the new site, and they were disjoint |
| Boot.BuildVhosts | src/main.rs:2058-2141 | boots exactly the table of its specification; the total is every byte it retains |
| Boot.BootFits | src/main.rs:2058-2141 | a table booted in memory storage retains at most max_total_bytes, error pages included |
| Boot.MeasureCache | src/cache.rs:626-632 | the sum over entries is the cache's retained bytes |
| Boot.ErrorPageBytes | src/main.rs:2143-2156 | found through the names in any order, each distinct site is counted once: the six pages of the server and of every site |
| Boot.Targets | src/main.rs:441-457 | the distinct sites with a tree, found through the names |
| Boot.SeedTotal | src/main.rs:478-489 | a rebuild starts from the bytes of everything but its own cache, each distinct site once |
| Boot.ReloadSite | src/main.rs:478-517 | a successful rebuild swaps one cache, a failed one changes nothing; what the build held when it stopped |
| Boot.ReloadFits | src/main.rs:478-506 | in memory storage a hot reload keeps the budget, and while both caches are resident stays within twice of it |
| Boot.RebuildPeak | src/main.rs:478-506 | the same peak for every rebuild, completed or stopped midway by the budget or an unreadable directory |
| Boot.ReloadsFit | src/main.rs:478-506 | in memory storage any sequence of per-site hot reloads keeps the budget |
| Routing.RouteRequest | src/main.rs:1232-1290 | host, method and path checks in order |
| Routing.RouteSite | src/main.rs:1292-1405 | the ACME exemption, the four ways to redirect, then the cache |
| Routing.CanonicalIsFinal | src/main.rs:1053-1065 | the result of a fold never folds again and is never a bare directory name |
| Routing.FoldKeepsDocument | src/main.rs:837-866 | what a key folds onto serves that key, except that `s.html` yields to an existing `s/index.html` |
| Routing.DirRedirectLands | src/main.rs:837-866 | a directory index path plus a slash resolves to that index |
| Hops.FoldServesDocument | src/main.rs:1325-1342 | end to end: following the Location of a fold serves that document, iff the Location's host still names the site, the folded path is under 1024 bytes once encoded, and neither the ACME prefix nor a redirect rule claims it |
| Hops.DirServesIndex | src/main.rs:1376-1397 | end to end: following a directory redirect serves its index under exactly the same condition |
| Hops.PlainHostComesBack | src/main.rs:1069-1077 | a trimmed lower-case host name without a colon or bracket is one that comes back from every Location |
| Hops.BracketedHostIsLost | src/main.rs:1069-1077 | the host of `[::1]` does not: its Location is cut at the first colon, and names the site only if the empty name does |
| Hops.AcmeFoldIsLost | src/main.rs:1292-1342 | a cached page whose fold falls under the ACME prefix is redirected, and the redirect does not serve it |
| Hops.AcmePageExists | src/cache.rs:584-586 | there is such a page, and a walk indexes it: `/.well-known/acme-challenge.html` |
| Hops.UpgradeKeepsRequest | src/main.rs:1343-1350 | the upgrade leads to the same request on TLS iff its target holds no raw `#`, and then gets what TLS would have answered |
| Hops.RawHashIsLost | src/main.rs:1343-1350 | a request for `/a#b` does reach the upgrade, which leads to `/a` |
| Hops.LongDirectoryIsRefused | src/main.rs:1267-1272 | a directory path of 1023 bytes is redirected to a path that gets a 400 |
| Routing.BuiltKeysAreDocs | src/cache.rs:594-722 | the caches that a build produces have the keys the fold relies on |
| Hops.AuthorityNormalizes | src/main.rs:1003-1009 | the host survives the trip through a Location's authority and back through normalisation |
| Hops.TlsHopIsLast | src/main.rs:1285-1405 | where no rule can be reached, a redirect from the TLS listener is the last one |
| Hops.PlainHopBound | src/main.rs:1285-1405 | where no rule can be reached, at most two redirects follow from the plain listener; two only after the upgrade, for a host that comes back from a Location |
| Server.HandleRequest | src/main.rs:1084-1412 | head bytes to response bytes, through the parsing, routing, coding and streaming loops |
| Server.HandleTruthful | src/main.rs:1084-1412 | a reply is self-delimiting with a true Connection field, iff it is not the answer to an unreadable HEAD |
| Server.HandleHonours | src/main.rs:1219-1221 | told that a request is the last, every reply closes |
| Server.StreamIsSelfDelimiting | src/main.rs:1858-1945 | a client that knows only which of its requests were HEAD reads back exactly one response per answer with nothing left, iff no answered request is a HEAD that is unreadable or too large |
| Server.StrayHeadLeavesBody | src/main.rs:1099-1115 | a HEAD with a stray control byte arrives at the handler, and its answer leaves a body on the stream |
| Server.OversizedHeadLeavesBody | src/main.rs:1889-1914 | every HEAD that is too large gets the 431 with its body, which is left on the stream; `HEAD / HTTP/1.1` followed by 8192 letters is one |
| Server.TimedOutStream | src/main.rs:1918-1922 | behind the answers of an open connection the 408 reads as one more response iff the unfinished request is no HEAD |
| Server.LastResponseCloses | src/main.rs:1937-1943 | the 1000th response always says close |
| Server.ServeConnection | src/main.rs:1858-1945 | the whole server: socket reads to the client's bytes, equal to the simple form unless a deadline was over, and keeping time as the loop does |
| Server.HandleTwins | src/main.rs:1084-1412 | two host tables that differ only in where their documents are stored give every request head the same reply |
| Server.ConnectionTwins | src/main.rs:1858-1945 | and every connection the same answers |
| Runtime.BuiltSiteIsOk | src/cache.rs:594-722 | every entry of a built cache is as its builder makes it, with its bodies in the snapshot, in either storage |
| Runtime.ParsedConfigIsSound | src/config.rs:643-881 | every site of an accepted config has a name, sound rule targets, one-line headers and the shared budget |
| Runtime.ConfigBootsOk | src/main.rs:2046-2168 | an accepted config over readable trees boots a table that meets everything the request path relies on, and in memory storage within the configured budget |
| Runtime.ReloadKeepsRuntime | src/main.rs:478-517 | a hot reload keeps it so, whether its build succeeds or not |
| Runtime.StorageSettingIsInvisible | src/main.rs:2046-2168 | one config over the same trees, once in memory and once on disk: every connection gets the same bytes |
| Runtime.FailuresAreCharged | src/cache.rs:148-165 | every refusal of the routing is one of the responses built at boot, under the right status and of the right site, and its bytes are part of what the runtime retains |
| Runtime.EarlyFailuresAreCharged | src/main.rs:1866-1922 | so are the 400 to a head that cannot be parsed, the 431 and the 408 |
| Progress.DeadlineIo.constructor | src/main.rs:1755-1769 | a fresh window, and the absolute deadline if one is configured |
| Progress.DeadlineIo.Read | src/main.rs:1801-1813 | deadlines first; a positive read starts a clean window, nothing else changes it |
| Progress.DeadlineIo.Write | src/main.rs:1815-1828 | deadlines, then the rate check, then the bytes are counted; which failure leaves which state |
| Progress.Transfer | src/main.rs:1789-1828 | a run of writes gets through only if every call passes the rate check, and is cut by it only if one does not |
| Progress.RateBound | src/main.rs:1776-1800 | a call that passes after B bytes does so less than floor(B/1024) * (30 + w + d) + 30 seconds after the window began |
| Progress.SlotIsReleased | src/main.rs:84-99 | so the slot of a response of L bytes is free, by its end or by the rate check that drops it, even its very first one, within the bound for L bytes plus one socket call (and one more check) |
| Limits.Semaphore.AcquireTurn | src/main.rs:557-573 | one turn of the wait loop: take, sleep, or give up when late |
| Limits.Semaphore.Release | src/main.rs:575-581 | a dropped permit returns its slot |
| Limits.SlotRunKeeps | src/main.rs:537-581 | over every interleaving, count plus live permits is constant and no wake-up is lost |
| Limits.GivesUpOnlyWhenFull | src/main.rs:557-573 | a waiter gives up only when all permits are out |
| Limits.PeerLimiter.SetMax | src/main.rs:609-611 | changes the cap only |
| Limits.PeerLimiter.TryAcquire | src/main.rs:617-629 | counted, uncounted or refused, and the counters after each |
| Limits.PeerLimiter.DropPermit | src/main.rs:631-644 | undoes what the permit did, with the wrapping decrement written out |
| Limits.BooksBalance | src/main.rs:589-644 | each counter is the number of live counted permits, no zero entry stays, and no decrement wraps, even when the cap passes through 0 |
| Limits.NoPeerExceedsCap | src/main.rs:605-644 | on every run counted permits stay within the largest cap, and if the cap was never 0 there are no others |
| Limits.ZeroLeavesUncounted | src/main.rs:617-622 | for any number of permits and any later cap, a run in which a cap of 0 leaves that many uncounted permits alive |
| Watcher.Tables.Scan | src/main.rs:459-519 | the scan loop updates applied, last and live caches as the fold over its targets says |
| Watcher.AppliedIsUpToDate | src/main.rs:186-202 | over every interleaving with edits and reloads, an applied signature equal to the tree's means the live cache is a build of that tree |
| Watcher.TwoScansConverge | src/main.rs:428-521 | once edits stop and builds succeed, two scans bring every site up to date, and it stays so |
| ConfigLines.SizeWithUnit | src/config.rs:453-468 | a size in K, M or G is that many times 2 to the 10th, 20th or 30th, or refused when the product overflows |
| ConfigLines.PlainSize | src/config.rs:453-468 | without a suffix a size is its digits, or refused when they overflow |
| ConfigLines.SetThenGet | src/config.rs:534-554 | applying one shared setting changes that setting and no other, nor the shared budget |
| ConfigLines.SettingsDecide | src/config.rs:534-554 | the thirteen shared settings and the budget are all there is to a site's policy |
| ConfigFile.ParseConfig | src/config.rs:643-881 | the line loop, with the line number of every error |
| ConfigFile.OnePassIsTwoPass | src/config.rs:643-881 | the parser accepts exactly the files with a two-pass meaning, with that meaning |
| ConfigFile.MoveTopLine | src/config.rs:623-640 | moving a top-level line across whole site blocks changes nothing but line numbers in errors |
| ConfigFile.SiteIsItsBlock | src/config.rs:828-867 | each site is its own block applied to the finished defaults |
| ConfigFile.SitesAreIndependent | src/config.rs:828-867 | the same block under the same top-level lines means the same site in any two files |
| ConfigFile.EffectiveSetting | src/config.rs:534-554 | a setting is the last one in the site's block, else the last top-level one wherever it stands, else the default; the budget is the server's |
| ConfigFile.SecondPassCannotFail | src/config.rs:851-854 | the deferred overrides of every state the parser reaches apply to any defaults |
| ConfigFile.ParsedHeadersAreLines | src/config.rs:518-527 | no accepted value ends a site's header block early |
| ConfigFile.ParsedRules | src/config.rs:704-722 | a site's rules are those of its block, pushed in order and sorted, with sound targets |

## Left out

- TLS: the handshake, certificate selection, 0-RTT and `build_tls`; a TLS request carries an optional SNI name.
- The live read of an ACME token file with its symlink and hard-link checks; what it returns is a parameter.
- Sockets, threads, listener binding, accept errors and `retire`.
- A failed write: it ends the connection at once, so the client sees a prefix of the modelled output.
- A failed read from a snapshot file, and a snapshot file that cannot be written: both are disk faults after the build started.
- The phase deadline is a field of the socket wrapper; arming and disarming it around each request is not tied to the connection loop.
- The text of error messages and of the converted blocks that `explain_site_line` and `explain_redirect_line` print.
- File names that are not UTF-8: decoded lossily, two of them can share one URL. `Budget.ListingExact` needs distinct names; `Budget.WalkCharges` does not.
- The watcher's certificate, symlink and listener reconciliation, its back-off and its log records.
- A document root that starts to resolve elsewhere between the watcher's sample and the build: the model's roots are fixed, and every root of a config is in its sample.
- Two tree states with one signature: signatures in the model never recur, as hash collisions and restored timestamps are outside it.
- Hops.PlainHopBound: for a host without `/`, `?` or `#`, which a config line could name, but no host name has. Its own site must be free of rules and its name must come back from a Location, or no site may have rules: a bracketed IPv6 host loses its brackets in a Location and so names another host.
- Hops.TlsHopIsLast: under the same condition; sites with redirect rules can loop across several rules.
- Hops.FoldServesDocument: for a host without `/`, `?` or `#` and ports without them.
- Hops.DirServesIndex: the same.
- Hops.UpgradeKeepsRequest: for a host name that comes back from a Location, and a site without rules.
- Server.StreamIsSelfDelimiting: the 408 of an expired deadline comes after the stream it describes; `Server.TimedOutStream` adds it.
- Boot.RebuildPeak: what the tables retain; the one file that is being read and compressed is not counted.
- Runtime.StorageSettingIsInvisible: for two runtimes that both booted; a tree over the budget boots on disk only.
- Runtime.ConfigBootsOk: for ports made of digits, as a listener must have been bound to them, and names that are distinct within each directory.
- Boot.BootFits: in disk storage the budget is checked before each site but not by the walk, so only the exact total is proved there.
- Limits.GivesUpOnlyWhenFull: fairness between waiters; the condition variable promises none.
- MIME values are taken to be one line without a capital C, which holds for every entry of the MIME table.
- Honouring `identity;q=0`, and where a query goes when a rule target has a fragment.
