/**
 The content half of the hot-reload watcher (`watch`, `sample`, `site_key`): a machine whose steps
 interleave freely with edits of the document trees.
 */
module Watcher {
  import opened Bytes
  import opened Entries
  import opened Walk

  // ---------------------------------------------------------------- the trees and their signatures

  /** A tree as it stands between two edits, with its signature; `None` is an unreadable tree. */
  datatype Snapshot = Snapshot(tree: Option<Listing>, sig: nat)

  /** Every state that a document root went through, the current one last. */
  type History = seq<Snapshot>
  type Disk = map<string, History>

  /** Signatures never recur. */
  ghost predicate HistoryOk(h: History) {
    h != [] && forall i, j :: 0 <= i < j < |h| ==> h[i].sig != h[j].sig
  }

  function Current(h: History): Snapshot
    requires h != []
  {
    h[|h| - 1]
  }

  /** One distinct site, under the key that joins its smallest host name and its root. */
  datatype Watched = Watched(root: string, policy: Policy, storage: Storage)

  ghost predicate IsBuild(c: Cache, tree: Option<Listing>, site: Watched) {
    tree.Some? && exists total: nat :: BuiltAs(c, tree.value, total, site)
  }

  ghost predicate BuiltAs(c: Cache, l: Listing, total: nat, site: Watched) {
    var b := WalkListing(l, "", StartBuild(total), site.policy, site.storage);
    b.Some? && b.value.table == c
  }

  // ---------------------------------------------------------------- one site's turn in a scan

  datatype Maps = Maps(applied: map<string, nat>, last: map<string, nat>, live: map<string, Cache>)

  function Get(m: map<string, nat>, k: string, other: nat): nat {
    if k in m then m[k] else other
  }

  /** Changed since the last build, and stable since the last scan. */
  predicate Due(m: Maps, k: string, now: nat) {
    now != Get(m.applied, k, now) && now == Get(m.last, k, now)
  }

  /** `built` is what building this site's cache gives, should it be due. */
  function VisitOne(m: Maps, k: string, now: nat, built: Option<Cache>): Maps {
    var swapped :=
      if Due(m, k, now) && built.Some? then m.(live := m.live[k := built.value], applied := m.applied[k := now])
      else m;
    swapped.(last := swapped.last[k := now])
  }

  datatype Target = Target(key: string, now: nat, built: Option<Cache>)

  function VisitAll(m: Maps, targets: seq<Target>): Maps
    decreases targets
  {
    if targets == [] then m
    else VisitAll(VisitOne(m, targets[0].key, targets[0].now, targets[0].built), targets[1..])
  }

  lemma {:induction false} VisitAllSnoc(m: Maps, targets: seq<Target>, x: Target)
    ensures VisitAll(m, targets + [x]) == VisitOne(VisitAll(m, targets), x.key, x.now, x.built)
    decreases targets
  {
    if targets == [] {
      assert [x][1..] == [];
    } else {
      assert (targets + [x])[1..] == targets[1..] + [x];
      VisitAllSnoc(VisitOne(m, targets[0].key, targets[0].now, targets[0].built), targets[1..], x);
    }
  }

  /** What the watcher thread and the request threads see of the sites. */
  class Tables {
    var applied: map<string, nat>
    var last: map<string, nat>
    var live: map<string, Cache>

    function Value(): Maps
      reads this
    {
      Maps(applied, last, live)
    }

    method Scan(targets: seq<Target>)
      modifies this
      ensures Value() == VisitAll(old(Value()), targets)
    {
      for i := 0 to |targets|
        invariant Value() == VisitAll(old(Value()), targets[..i])
      {
        var t := targets[i];
        ghost var before := Value();
        var lastSig := if t.key in last then last[t.key] else t.now;
        var appliedSig := if t.key in applied then applied[t.key] else t.now;
        if t.now != appliedSig && t.now == lastSig {
          match t.built {
            case Some(cache) =>
              live := live[t.key := cache];
              applied := applied[t.key := t.now];
            case None =>
          }
        }
        last := last[t.key := t.now];
        assert Value() == VisitOne(before, t.key, t.now, t.built);
        VisitAllSnoc(old(Value()), targets[..i], t);
        assert targets[..i + 1] == targets[..i] + [t];
      }
      assert targets[..|targets|] == targets;
    }
  }

  // ---------------------------------------------------------------- the machine

  /** A signature as it was read, and after how many edits of that root. */
  datatype Sample = Sample(sig: nat, at: nat)
  type Samples = map<string, Sample>

  datatype Phase =
    | Resting
    | Scanning(samples: Samples, todo: set<string>)
    | Reloading(next: map<string, Watched>, samples: Samples)

  datatype World = World(disk: Disk, sites: map<string, Watched>, maps: Maps, phase: Phase)

  datatype Step =
    | Edit(root: string, after: Snapshot)
    | BeginScan
    | BeginReload(next: map<string, Watched>)
    | Read(root: string)
    | Visit(key: string, built: Option<Cache>)
    | EndScan
    | EndReload(caches: map<string, Cache>, last: map<string, nat>)
    | FailReload

  /** A build that an edit may have touched can have any outcome; an undisturbed one is a build of the tree. */
  ghost predicate Outcome(h: History, x: Sample, site: Watched, built: Option<Cache>) {
    h != [] && (x.at == |h| - 1 && built.Some? ==> IsBuild(built.value, Current(h).tree, site))
  }

  /** The signature `sig` was read at some moment after the sample `x`. */
  ghost predicate ReadSince(h: History, x: Sample, sig: nat) {
    exists i :: x.at <= i < |h| && h[i].sig == sig
  }

  ghost predicate Rebuilt(w: World, k: string, caches: map<string, Cache>, last: map<string, nat>)
    requires w.phase.Reloading? && k in w.phase.next
  {
    var site := w.phase.next[k];
    && site.root in w.phase.samples && site.root in w.disk && k in caches && k in last
    && Outcome(w.disk[site.root], w.phase.samples[site.root], site, Some(caches[k]))
    && ReadSince(w.disk[site.root], w.phase.samples[site.root], last[k])
  }

  ghost predicate Enabled(w: World, step: Step) {
    match step
    case Edit(r, after) => r in w.disk && forall i :: 0 <= i < |w.disk[r]| ==> w.disk[r][i].sig != after.sig
    case BeginScan => w.phase.Resting?
    case BeginReload(next) => w.phase.Resting? && forall k :: k in next ==> next[k].root in w.disk
    case Read(r) => !w.phase.Resting? && r in w.disk && w.disk[r] != [] && r !in w.phase.samples
    case Visit(k, built) =>
      && w.phase.Scanning? && k in w.phase.todo && k in w.sites
      && (forall j :: j in w.sites ==> w.sites[j].root in w.phase.samples)
      && w.sites[k].root in w.disk
      && Outcome(w.disk[w.sites[k].root], w.phase.samples[w.sites[k].root], w.sites[k], built)
    case EndScan => w.phase.Scanning? && w.phase.todo == {}
    case EndReload(caches, last) => w.phase.Reloading? && forall k :: k in w.phase.next ==> Rebuilt(w, k, caches, last)
    case FailReload => w.phase.Reloading?
  }

  ghost function Next(w: World, step: Step): World
    requires Enabled(w, step)
  {
    match step
    case Edit(r, after) => w.(disk := w.disk[r := w.disk[r] + [after]])
    case BeginScan => w.(phase := Scanning(map[], w.sites.Keys))
    case BeginReload(next) => w.(phase := Reloading(next, map[]))
    case Read(r) =>
      var samples := w.phase.samples[r := Sample(Current(w.disk[r]).sig, |w.disk[r]| - 1)];
      w.(phase := w.phase.(samples := samples))
    case Visit(k, built) =>
      w.(maps := VisitOne(w.maps, k, w.phase.samples[w.sites[k].root].sig, built),
         phase := w.phase.(todo := w.phase.todo - {k}))
    case EndScan => w.(phase := Resting)
    case FailReload => w.(phase := Resting)
    case EndReload(caches, last) => Reseeded(w, caches, last)
  }

  /** A finished reload: new sites, new caches, and the signatures sampled before they were built. */
  ghost function Reseeded(w: World, caches: map<string, Cache>, last: map<string, nat>): World
    requires w.phase.Reloading? && forall k :: k in w.phase.next ==> Rebuilt(w, k, caches, last)
  {
    var next, samples := w.phase.next, w.phase.samples;
    var applied := map k | k in next :: (assert Rebuilt(w, k, caches, last); samples[next[k].root].sig);
    World(w.disk, next, Maps(applied, last, caches), Resting)
  }

  ghost predicate Run(w: World, steps: seq<Step>, end: World)
    decreases steps
  {
    if steps == [] then end == w
    else Enabled(w, steps[0]) && Run(Next(w, steps[0]), steps[1..], end)
  }

  // ---------------------------------------------------------------- safety

  /** The site's applied signature was the tree's after edit `i`; if no edit came since, its cache is current. */
  ghost predicate AppliedAt(w: World, k: string, i: nat)
    requires k in w.sites
  {
    var site := w.sites[k];
    && k in w.maps.live && k in w.maps.applied && k in w.maps.last && site.root in w.disk
    && i < |w.disk[site.root]| && w.disk[site.root][i].sig == w.maps.applied[k]
    && (i == |w.disk[site.root]| - 1 ==> IsBuild(w.maps.live[k], w.disk[site.root][i].tree, site))
  }

  ghost predicate SampleOk(w: World, r: string, x: Sample) {
    r in w.disk && x.at < |w.disk[r]| && w.disk[r][x.at].sig == x.sig
  }

  ghost predicate SamplesOk(w: World) {
    !w.phase.Resting? ==> forall r :: r in w.phase.samples ==> SampleOk(w, r, w.phase.samples[r])
  }

  ghost predicate SitesOk(w: World) {
    forall k :: k in w.sites ==> exists i: nat :: AppliedAt(w, k, i)
  }

  ghost predicate WatchOk(w: World) {
    && (forall r :: r in w.disk ==> HistoryOk(w.disk[r]))
    && SitesOk(w) && SamplesOk(w)
  }

  lemma EditKeeps(w: World, r: string, after: Snapshot)
    requires WatchOk(w) && Enabled(w, Edit(r, after))
    ensures WatchOk(Next(w, Edit(r, after)))
  {
    var w' := Next(w, Edit(r, after));
    forall k | k in w'.sites ensures exists i: nat :: AppliedAt(w', k, i) {
      var i: nat :| AppliedAt(w, k, i);
      assert AppliedAt(w', k, i);
    }
  }

  lemma VisitKeeps(w: World, k: string, built: Option<Cache>)
    requires WatchOk(w) && Enabled(w, Visit(k, built))
    ensures SitesOk(Next(w, Visit(k, built)))
  {
    var w' := Next(w, Visit(k, built));
    var x := w.phase.samples[w.sites[k].root];
    forall j | j in w'.sites ensures exists i: nat :: AppliedAt(w', j, i) {
      var i: nat :| AppliedAt(w, j, i);
      assert SampleOk(w, w.sites[k].root, x);
      if j == k && Due(w.maps, k, x.sig) && built.Some? {
        assert AppliedAt(w', j, x.at);
      } else {
        assert AppliedAt(w', j, i);
      }
    }
  }

  lemma ReloadKeeps(w: World, caches: map<string, Cache>, last: map<string, nat>)
    requires WatchOk(w) && Enabled(w, EndReload(caches, last))
    ensures SitesOk(Next(w, EndReload(caches, last)))
  {
    var w' := Next(w, EndReload(caches, last));
    forall k | k in w'.sites ensures exists i: nat :: AppliedAt(w', k, i) {
      assert Rebuilt(w, k, caches, last);
      var x := w.phase.samples[w'.sites[k].root];
      assert SampleOk(w, w'.sites[k].root, x);
      assert AppliedAt(w', k, x.at);
    }
  }

  lemma OtherKeeps(w: World, step: Step)
    requires WatchOk(w) && Enabled(w, step) && !step.Edit? && !step.Visit? && !step.EndReload?
    ensures WatchOk(Next(w, step))
  {
    var w' := Next(w, step);
    forall k | k in w'.sites ensures exists i: nat :: AppliedAt(w', k, i) {
      var i: nat :| AppliedAt(w, k, i);
      assert AppliedAt(w', k, i);
    }
  }

  lemma StepKeeps(w: World, step: Step)
    requires WatchOk(w) && Enabled(w, step)
    ensures WatchOk(Next(w, step))
  {
    match step {
      case Edit(r, after) => EditKeeps(w, r, after);
      case Visit(k, built) => VisitKeeps(w, k, built);
      case EndReload(caches, last) => ReloadKeeps(w, caches, last);
      case _ => OtherKeeps(w, step);
    }
  }

  lemma {:induction false} RunKeeps(w: World, steps: seq<Step>, end: World)
    requires WatchOk(w) && Run(w, steps, end)
    ensures WatchOk(end)
    decreases steps
  {
    if steps != [] {
      StepKeeps(w, steps[0]);
      RunKeeps(Next(w, steps[0]), steps[1..], end);
    }
  }

  /** Before the boot build: nothing is served yet. */
  function Boot(disk: Disk, config: map<string, Watched>): World {
    World(disk, map[], Maps(map[], map[], map[]), Reloading(config, map[]))
  }

  ghost predicate UpToDate(w: World, k: string)
    requires k in w.sites
  {
    && w.sites[k].root in w.disk && w.disk[w.sites[k].root] != [] && k in w.maps.live
    && IsBuild(w.maps.live[k], Current(w.disk[w.sites[k].root]).tree, w.sites[k])
  }

  ghost predicate SaysApplied(w: World, k: string)
    requires k in w.sites
  {
    && w.sites[k].root in w.disk && w.disk[w.sites[k].root] != [] && k in w.maps.applied
    && w.maps.applied[k] == Current(w.disk[w.sites[k].root]).sig
  }

  lemma AppliedIsCurrent(w: World, k: string)
    requires WatchOk(w) && k in w.sites && SaysApplied(w, k)
    ensures UpToDate(w, k)
  {
    var i: nat :| AppliedAt(w, k, i);
    assert HistoryOk(w.disk[w.sites[k].root]);
  }

  /**
   Safety, over every interleaving of edits, scans and reloads from boot on: whenever a site's
   applied signature is the current one of its tree, its live cache is a build of that tree.
   */
  lemma AppliedIsUpToDate(disk: Disk, config: map<string, Watched>, steps: seq<Step>, end: World, k: string)
    requires forall r :: r in disk ==> HistoryOk(disk[r])
    requires Run(Boot(disk, config), steps, end)
    requires k in end.sites && SaysApplied(end, k)
    ensures UpToDate(end, k)
  {
    RunKeeps(Boot(disk, config), steps, end);
    AppliedIsCurrent(end, k);
  }

  // ---------------------------------------------------------------- convergence

  /** No edit, and every build of a due site succeeds. */
  predicate Quiet(step: Step) {
    !step.Edit? && (step.Visit? ==> step.built.Some?)
  }

  function Scans(steps: seq<Step>): nat {
    if steps == [] then 0 else (if steps[0].EndScan? then 1 else 0) + Scans(steps[1..])
  }

  /** What `n` quiet scans achieve for a site: the first makes it stable, the second applied. */
  ghost predicate Settled(w: World, k: string, n: nat)
    requires k in w.sites
  {
    && w.sites[k].root in w.disk && w.disk[w.sites[k].root] != []
    && (n >= 1 ==> k in w.maps.last && w.maps.last[k] == Current(w.disk[w.sites[k].root]).sig)
    && (n >= 2 ==> SaysApplied(w, k))
  }

  /** After `n` quiet scans; the sites that the running scan is done with are one further. */
  ghost predicate AtLevel(w: World, n: nat) {
    forall k :: k in w.sites ==> Settled(w, k, if w.phase.Scanning? && k !in w.phase.todo then n + 1 else n)
  }

  ghost predicate SampleFresh(w: World, r: string, x: Sample) {
    r in w.disk && w.disk[r] != [] && x.at == |w.disk[r]| - 1
  }

  ghost predicate SamplesFresh(w: World) {
    !w.phase.Resting? ==> forall r :: r in w.phase.samples ==> SampleFresh(w, r, w.phase.samples[r])
  }

  lemma QuietVisit(w: World, k: string, built: Option<Cache>, n: nat)
    requires WatchOk(w) && SamplesFresh(w) && AtLevel(w, n)
    requires Enabled(w, Visit(k, built)) && built.Some?
    ensures AtLevel(Next(w, Visit(k, built)), n)
  {
    var w' := Next(w, Visit(k, built));
    var root := w.sites[k].root;
    var x := w.phase.samples[root];
    assert SampleFresh(w, root, x) && SampleOk(w, root, x);
    var i: nat :| AppliedAt(w, k, i);
    forall j | j in w'.sites
      ensures Settled(w', j, if w'.phase.Scanning? && j !in w'.phase.todo then n + 1 else n)
    {
      assert Settled(w, j, if w.phase.Scanning? && j !in w.phase.todo then n + 1 else n);
    }
  }

  lemma QuietReload(w: World, caches: map<string, Cache>, last: map<string, nat>, n: nat)
    requires WatchOk(w) && SamplesFresh(w) && Enabled(w, EndReload(caches, last))
    ensures AtLevel(Next(w, EndReload(caches, last)), n)
  {
    var w' := Next(w, EndReload(caches, last));
    forall k | k in w'.sites ensures Settled(w', k, n) {
      assert Rebuilt(w, k, caches, last);
      var root := w'.sites[k].root;
      var x := w.phase.samples[root];
      assert SampleFresh(w, root, x) && SampleOk(w, root, x);
    }
  }

  lemma QuietOther(w: World, step: Step, n: nat, m: nat, w': World)
    requires AtLevel(w, n) && Enabled(w, step) && w' == Next(w, step)
    requires step.BeginScan? || step.BeginReload? || step.Read? || step.EndScan? || step.FailReload?
    requires m == if step.EndScan? then n + 1 else n
    ensures AtLevel(w', m)
  {
    forall k | k in w'.sites
      ensures Settled(w', k, if w'.phase.Scanning? && k !in w'.phase.todo then m + 1 else m)
    {
      assert Settled(w, k, if w.phase.Scanning? && k !in w.phase.todo then n + 1 else n);
    }
  }

  lemma QuietStep(w: World, step: Step, n: nat, m: nat, w': World)
    requires WatchOk(w) && SamplesFresh(w) && AtLevel(w, n)
    requires Enabled(w, step) && Quiet(step) && w' == Next(w, step)
    requires m == if step.EndScan? then n + 1 else n
    ensures SamplesFresh(w') && AtLevel(w', m)
  {
    if step.Visit? {
      QuietVisit(w, step.key, step.built, n);
    } else if step.EndReload? {
      QuietReload(w, step.caches, step.last, n);
    } else {
      QuietOther(w, step, n, m, w');
    }
  }

  predicate AllQuiet(steps: seq<Step>) {
    forall i :: 0 <= i < |steps| ==> Quiet(steps[i])
  }

  lemma {:induction false} QuietRun(w: World, steps: seq<Step>, end: World, n: nat)
    requires WatchOk(w) && SamplesFresh(w) && AtLevel(w, n) && Run(w, steps, end) && AllQuiet(steps)
    ensures WatchOk(end) && AtLevel(end, n + Scans(steps))
    decreases steps
  {
    if steps != [] {
      var w' := Next(w, steps[0]);
      var m: nat := if steps[0].EndScan? then n + 1 else n;
      StepKeeps(w, steps[0]);
      QuietStep(w, steps[0], n, m, w');
      QuietRun(w', steps[1..], end, m);
    }
  }

  lemma ScansSettle(w: World, steps: seq<Step>, end: World, k: string)
    requires WatchOk(w) && w.phase.Resting? && Run(w, steps, end) && AllQuiet(steps)
    requires Scans(steps) >= 2 && k in end.sites
    ensures SaysApplied(end, k) && UpToDate(end, k)
  {
    forall j | j in w.sites ensures Settled(w, j, 0) {
      var i: nat :| AppliedAt(w, j, i);
    }
    QuietRun(w, steps, end, 0);
    var n := if end.phase.Scanning? && k !in end.phase.todo then Scans(steps) + 1 else Scans(steps);
    assert Settled(end, k, n);
    AppliedIsCurrent(end, k);
  }

  /**
   Convergence: from any reachable state between two iterations, once edits stop and builds
   succeed, every site serves the current tree after two scans, and from then on.
   */
  lemma TwoScansConverge(disk: Disk, config: map<string, Watched>, before: seq<Step>, w: World, steps: seq<Step>, end: World, k: string)
    requires forall r :: r in disk ==> HistoryOk(disk[r])
    requires Run(Boot(disk, config), before, w) && w.phase.Resting?
    requires Run(w, steps, end) && AllQuiet(steps)
    requires Scans(steps) >= 2 && k in end.sites
    ensures SaysApplied(end, k) && UpToDate(end, k)
  {
    RunKeeps(Boot(disk, config), before, w);
    ScansSettle(w, steps, end, k);
  }
}
