/**
 The two connection limiters (`Semaphore` and `PeerLimiter`), as step machines over every
 interleaving of the threads that share them.
 */
module Limits {
  import opened Bytes

  // ---------------------------------------------------------------- the counting semaphore

  datatype Turn = Take | GiveUp | Sleep

  /** One turn of the loop in `acquire_timeout`, under the lock. `late` says that no time is left. */
  function TakeTurn(count: nat, late: bool): (nat, Turn) {
    if count > 0 then (count - 1, Take)
    else if late then (count, GiveUp)
    else (count, Sleep)
  }

  class Semaphore {
    var count: nat

    constructor (n: nat)
      ensures count == n
    {
      count := n;
    }

    method AcquireTurn(now: nat, deadline: nat) returns (turn: Turn)
      modifies this
      ensures (count, turn) == TakeTurn(old(count), now >= deadline)
    {
      if count == 0 {
        if deadline <= now {
          return GiveUp;
        }
        return Sleep;
      }
      count := count - 1;
      return Take;
    }

    method Release()
      modifies this
      ensures count == old(count) + 1
    {
      count := count + 1;
    }
  }

  /** Where one thread stands: `Asleep` is in the queue of the condition variable, `Ready` wants the lock. */
  datatype Waiter = Idle | Asleep | Ready | Holding

  datatype Slots = Slots(count: nat, threads: seq<Waiter>)

  /** `Wake` is a time-out or a spurious wake-up; `Drop` releases a permit and notifies `wakes`. */
  datatype SlotStep = Arrive(t: nat) | Attempt(t: nat, late: bool) | Wake(t: nat) | Drop(t: nat, wakes: Option<nat>)

  predicate Is(s: Slots, t: nat, w: Waiter) {
    t < |s.threads| && s.threads[t] == w
  }

  /** `notify_one` wakes somebody whenever somebody is asleep. */
  predicate Enabled(s: Slots, step: SlotStep) {
    match step
    case Arrive(t) => Is(s, t, Idle)
    case Attempt(t, _) => Is(s, t, Ready)
    case Wake(t) => Is(s, t, Asleep)
    case Drop(t, Some(w)) => Is(s, t, Holding) && Is(s, w, Asleep)
    case Drop(t, None) => Is(s, t, Holding) && Asleep !in s.threads
  }

  function Become(s: Slots, t: nat, w: Waiter): Slots
    requires t < |s.threads|
  {
    s.(threads := s.threads[t := w])
  }

  function SlotNext(s: Slots, step: SlotStep): Slots
    requires Enabled(s, step)
  {
    match step
    case Arrive(t) => Become(s, t, Ready)
    case Wake(t) => Become(s, t, Ready)
    case Attempt(t, late) =>
      var (count, turn) := TakeTurn(s.count, late);
      Become(s.(count := count), t, match turn case Take => Holding case GiveUp => Idle case Sleep => Asleep)
    case Drop(t, wakes) =>
      var released := Become(s.(count := s.count + 1), t, Idle);
      if wakes.Some? then Become(released, wakes.value, Ready) else released
  }

  function Tally<T(==)>(threads: seq<T>, x: T): nat {
    multiset(threads)[x]
  }

  lemma TallyUpdate<T>(threads: seq<T>, t: nat, x: T, y: T)
    requires t < |threads|
    ensures Tally(threads[t := x], y) ==
            Tally(threads, y) - (if threads[t] == y then 1 else 0) + (if x == y then 1 else 0)
  {
    var old' := multiset(threads);
    assert threads == threads[..t] + [threads[t]] + threads[t + 1..];
    assert threads[t := x] == threads[..t] + [x] + threads[t + 1..];
  }

  /**
   Slots are conserved, and no wake-up is lost: while a thread sleeps, every free slot has a thread
   awake that is about to look at it.
   */
  predicate SlotsOk(s: Slots, n: nat) {
    && s.count + Tally(s.threads, Holding) == n
    && (Asleep in s.threads ==> s.count <= Tally(s.threads, Ready))
  }

  lemma BecomeTallies(s: Slots, t: nat, w: Waiter)
    requires t < |s.threads|
    ensures forall y :: Tally(Become(s, t, w).threads, y) ==
                        Tally(s.threads, y) - (if s.threads[t] == y then 1 else 0) + (if w == y then 1 else 0)
    ensures Asleep in Become(s, t, w).threads ==> w == Asleep || Asleep in s.threads
  {
    forall y {
      TallyUpdate(s.threads, t, w, y);
    }
  }

  lemma AttemptKeeps(s: Slots, t: nat, late: bool, n: nat)
    requires SlotsOk(s, n) && Enabled(s, Attempt(t, late))
    ensures SlotsOk(SlotNext(s, Attempt(t, late)), n)
  {
    BecomeTallies(s, t, if s.count > 0 then Holding else if late then Idle else Asleep);
  }

  lemma DropKeeps(s: Slots, t: nat, wakes: Option<nat>, n: nat)
    requires SlotsOk(s, n) && Enabled(s, Drop(t, wakes))
    ensures SlotsOk(SlotNext(s, Drop(t, wakes)), n)
  {
    var released := Become(s.(count := s.count + 1), t, Idle);
    BecomeTallies(s, t, Idle);
    if wakes.Some? {
      BecomeTallies(released, wakes.value, Ready);
    }
  }

  lemma SlotStepKeeps(s: Slots, step: SlotStep, n: nat)
    requires SlotsOk(s, n) && Enabled(s, step)
    ensures SlotsOk(SlotNext(s, step), n)
  {
    match step {
      case Attempt(t, late) => AttemptKeeps(s, t, late, n);
      case Drop(t, wakes) => DropKeeps(s, t, wakes, n);
      case _ => BecomeTallies(s, step.t, Ready);
    }
  }

  /** Everything that a run of enabled steps can reach from `s`. */
  ghost predicate SlotRun(s: Slots, steps: seq<SlotStep>, end: Slots)
    decreases steps
  {
    if steps == [] then end == s
    else Enabled(s, steps[0]) && SlotRun(SlotNext(s, steps[0]), steps[1..], end)
  }

  lemma {:induction false} SlotRunKeeps(s: Slots, steps: seq<SlotStep>, end: Slots, n: nat)
    requires SlotRun(s, steps, end) && SlotsOk(s, n)
    ensures SlotsOk(end, n)
    decreases steps
  {
    if steps != [] {
      SlotStepKeeps(s, steps[0], n);
      SlotRunKeeps(SlotNext(s, steps[0]), steps[1..], end, n);
    }
  }

  /** A waiter gives up only when every one of the `n` permits is out. */
  lemma GivesUpOnlyWhenFull(n: nat, threads: nat, steps: seq<SlotStep>, end: Slots, t: nat, late: bool)
    requires SlotRun(Slots(n, seq(threads, _ => Idle)), steps, end)
    requires Is(end, t, Ready) && Is(SlotNext(end, Attempt(t, late)), t, Idle)
    ensures late && Tally(end.threads, Holding) == n
  {
    SlotRunKeeps(Slots(n, seq(threads, _ => Idle)), steps, end, n);
  }

  // ---------------------------------------------------------------- the per-address limiter

  type Ip = string
  type Counts = map<Ip, nat>

  /** The locked part of `try_acquire`: the entry is made before the cap is looked at. */
  function Admit(counts: Counts, ip: Ip, max: nat): (Counts, bool) {
    var n := if ip in counts then counts[ip] else 0;
    if n >= max then (counts[ip := n], false) else (counts[ip := n + 1], true)
  }

  /** The locked part of dropping a counted permit; the decrement is that of a `usize`. */
  function Discharge(counts: Counts, ip: Ip): Counts {
    if ip !in counts then counts
    else
      var n := if counts[ip] == 0 then USIZE_MAX else counts[ip] - 1;
      if n == 0 then counts - {ip} else counts[ip := n]
  }

  class PeerLimiter {
    var max: nat
    var counts: Counts

    constructor (max: nat)
      ensures this.max == max && counts == map[]
    {
      this.max, counts := max, map[];
    }

    method SetMax(max: nat)
      modifies this`max
      ensures this.max == max
    {
      this.max := max;
    }

    /** `loaded` is what reading `max` gave before the lock was taken: a permit's `counted` flag, or `None`. */
    method TryAcquire(ip: Ip, loaded: nat) returns (permit: Option<bool>)
      modifies this`counts
      ensures loaded == 0 ==> permit == Some(false) && counts == old(counts)
      ensures loaded != 0 ==> (counts, permit.Some?) == Admit(old(counts), ip, loaded) && permit != Some(false)
    {
      if loaded == 0 {
        return Some(false);
      }
      var n := if ip in counts then counts[ip] else 0;
      counts := counts[ip := n];
      if n >= loaded {
        return None;
      }
      assert counts[ip := n + 1] == old(counts)[ip := n + 1];
      counts := counts[ip := n + 1];
      return Some(true);
    }

    method DropPermit(ip: Ip, counted: bool)
      modifies this`counts
      ensures counts == if counted then Discharge(old(counts), ip) else old(counts)
    {
      if !counted {
        return;
      }
      if ip in counts {
        var n := if counts[ip] == 0 then USIZE_MAX else counts[ip] - 1;
        counts := counts[ip := n];
        if n == 0 {
          counts := counts - {ip};
        }
      }
    }
  }

  /** Where one thread stands: it has read `max`, or holds a permit. */
  datatype Claim = Free | Loaded(ip: Ip, max: nat) | Held(ip: Ip, counted: bool)

  datatype Peers = Peers(max: nat, counts: Counts, threads: seq<Claim>)

  datatype PeerStep = Load(t: nat, ip: Ip) | Lock(t: nat) | Let(t: nat) | Set(max: nat)

  predicate PeerEnabled(s: Peers, step: PeerStep) {
    match step
    case Load(t, _) => t < |s.threads| && s.threads[t].Free?
    case Lock(t) => t < |s.threads| && s.threads[t].Loaded?
    case Let(t) => t < |s.threads| && s.threads[t].Held?
    case Set(_) => true
  }

  function Claims(s: Peers, t: nat, counts: Counts, c: Claim): Peers
    requires t < |s.threads|
  {
    s.(counts := counts, threads := s.threads[t := c])
  }

  function PeerNext(s: Peers, step: PeerStep): Peers
    requires PeerEnabled(s, step)
  {
    match step
    case Set(max) => s.(max := max)
    case Load(t, ip) => Claims(s, t, s.counts, if s.max == 0 then Held(ip, false) else Loaded(ip, s.max))
    case Lock(t) =>
      var c := s.threads[t];
      var (counts, admitted) := Admit(s.counts, c.ip, c.max);
      Claims(s, t, counts, if admitted then Held(c.ip, true) else Free)
    case Let(t) =>
      var c := s.threads[t];
      Claims(s, t, if c.counted then Discharge(s.counts, c.ip) else s.counts, Free)
  }

  /** One address's books: its entry is the number of its live counted permits, and is never zero. */
  predicate Balanced(threads: seq<Claim>, counts: Counts, ip: Ip) {
    && Tally(threads, Held(ip, true)) == (if ip in counts then counts[ip] else 0)
    && (ip in counts ==> counts[ip] > 0)
  }

  ghost predicate PeersOk(s: Peers) {
    && (forall ip: Ip :: Balanced(s.threads, s.counts, ip))
    && (forall t :: 0 <= t < |s.threads| && s.threads[t].Loaded? ==> s.threads[t].max > 0)
  }

  /** A step that moves one address's counter exactly as it moves that address's permits. */
  lemma BalancedAfter(threads: seq<Claim>, counts: Counts, t: nat, c: Claim, counts': Counts, ip: Ip)
    requires t < |threads| && Balanced(threads, counts, ip)
    requires var n := if ip in counts then counts[ip] else 0;
             var m := if threads[t] == Held(ip, true) then n - 1 else n;
             var k := if c == Held(ip, true) then m + 1 else m;
             if k == 0 then ip !in counts' else ip in counts' && counts'[ip] == k
    ensures Balanced(threads[t := c], counts', ip)
  {
    TallyUpdate(threads, t, c, Held(ip, true));
  }

  lemma HeldIsCounted(s: Peers, t: nat)
    requires PeersOk(s) && t < |s.threads| && s.threads[t].Held? && s.threads[t].counted
    ensures s.threads[t].ip in s.counts && s.counts[s.threads[t].ip] > 0
  {
    var ip := s.threads[t].ip;
    assert Balanced(s.threads, s.counts, ip);
    assert s.threads[t] == Held(ip, true);
    assert s.threads[t] in multiset(s.threads);
    assert Tally(s.threads, Held(ip, true)) > 0;
  }

  lemma LockKeeps(s: Peers, t: nat, ip: Ip)
    requires PeersOk(s) && PeerEnabled(s, Lock(t))
    ensures Balanced(PeerNext(s, Lock(t)).threads, PeerNext(s, Lock(t)).counts, ip)
  {
    var s' := PeerNext(s, Lock(t));
    assert Balanced(s.threads, s.counts, ip) && Balanced(s.threads, s.counts, s.threads[t].ip);
    BalancedAfter(s.threads, s.counts, t, s'.threads[t], s'.counts, ip);
  }

  lemma LetKeeps(s: Peers, t: nat, ip: Ip)
    requires PeersOk(s) && PeerEnabled(s, Let(t))
    ensures Balanced(PeerNext(s, Let(t)).threads, PeerNext(s, Let(t)).counts, ip)
  {
    var s' := PeerNext(s, Let(t));
    assert Balanced(s.threads, s.counts, ip);
    if s.threads[t].counted {
      HeldIsCounted(s, t);
    }
    BalancedAfter(s.threads, s.counts, t, s'.threads[t], s'.counts, ip);
  }

  lemma LoadKeeps(s: Peers, t: nat, from: Ip, ip: Ip)
    requires PeersOk(s) && PeerEnabled(s, Load(t, from))
    ensures Balanced(PeerNext(s, Load(t, from)).threads, s.counts, ip)
  {
    assert Balanced(s.threads, s.counts, ip);
    BalancedAfter(s.threads, s.counts, t, PeerNext(s, Load(t, from)).threads[t], s.counts, ip);
  }

  lemma PeerStepKeeps(s: Peers, step: PeerStep)
    requires PeersOk(s) && PeerEnabled(s, step)
    ensures PeersOk(PeerNext(s, step))
  {
    forall ip: Ip ensures Balanced(PeerNext(s, step).threads, PeerNext(s, step).counts, ip) {
      match step {
        case Set(_) => assert Balanced(s.threads, s.counts, ip);
        case Load(t, from) => LoadKeeps(s, t, from, ip);
        case Lock(t) => LockKeeps(s, t, ip);
        case Let(t) => LetKeeps(s, t, ip);
      }
    }
  }

  ghost predicate PeerRun(s: Peers, steps: seq<PeerStep>, end: Peers)
    decreases steps
  {
    if steps == [] then end == s
    else PeerEnabled(s, steps[0]) && PeerRun(PeerNext(s, steps[0]), steps[1..], end)
  }

  lemma {:induction false} PeerRunKeeps(s: Peers, steps: seq<PeerStep>, end: Peers)
    requires PeerRun(s, steps, end) && PeersOk(s)
    ensures PeersOk(end)
    decreases steps
  {
    if steps != [] {
      PeerStepKeeps(s, steps[0]);
      PeerRunKeeps(PeerNext(s, steps[0]), steps[1..], end);
    }
  }

  function StartPeers(max: nat, threads: nat): Peers {
    Peers(max, map[], seq(threads, _ => Free))
  }

  lemma StartsOk(max: nat, threads: nat)
    ensures PeersOk(StartPeers(max, threads))
  {
    forall ip: Ip ensures Balanced(StartPeers(max, threads).threads, map[], ip) {
      assert Held(ip, true) !in StartPeers(max, threads).threads;
    }
  }

  /**
   Over every interleaving of loads, locked sections, drops and changes of the cap (zero included):
   the counters are the live counted permits, no zero entry stays behind, and the next drop of a
   counted permit finds a positive counter, so the decrement never wraps.
   */
  lemma BooksBalance(max: nat, threads: nat, steps: seq<PeerStep>, end: Peers)
    requires PeerRun(StartPeers(max, threads), steps, end)
    ensures forall ip: Ip :: Balanced(end.threads, end.counts, ip)
    ensures forall t :: 0 <= t < |end.threads| && end.threads[t].Held? && end.threads[t].counted ==>
                          end.threads[t].ip in end.counts && end.counts[end.threads[t].ip] > 0
  {
    StartsOk(max, threads);
    PeerRunKeeps(StartPeers(max, threads), steps, end);
    forall t | 0 <= t < |end.threads| && end.threads[t].Held? && end.threads[t].counted
      ensures end.threads[t].ip in end.counts && end.counts[end.threads[t].ip] > 0
    {
      HeldIsCounted(end, t);
    }
  }

  /** No cap so far was above `cap`, and no counter is. */
  ghost predicate Capped(s: Peers, cap: nat) {
    && s.max <= cap
    && (forall ip :: ip in s.counts ==> s.counts[ip] <= cap)
    && (forall t :: 0 <= t < |s.threads| && s.threads[t].Loaded? ==> s.threads[t].max <= cap)
  }

  /** The cap was never 0: every permit is counted. */
  ghost predicate AllCounted(s: Peers) {
    s.max > 0 && forall t :: 0 <= t < |s.threads| && s.threads[t].Held? ==> s.threads[t].counted
  }

  predicate KeepsCap(step: PeerStep, cap: nat) {
    step.Set? ==> step.max <= cap
  }

  lemma CapStepKeeps(s: Peers, step: PeerStep, cap: nat)
    requires PeersOk(s) && Capped(s, cap) && PeerEnabled(s, step) && KeepsCap(step, cap)
    ensures Capped(PeerNext(s, step), cap)
  {
    if step.Let? && s.threads[step.t].counted {
      HeldIsCounted(s, step.t);
    }
  }

  lemma CountedStepKeeps(s: Peers, step: PeerStep)
    requires AllCounted(s) && PeerEnabled(s, step) && step != Set(0)
    ensures AllCounted(PeerNext(s, step))
  {
  }

  lemma {:induction false} CapRunKeeps(s: Peers, steps: seq<PeerStep>, end: Peers, cap: nat)
    requires PeerRun(s, steps, end) && PeersOk(s) && Capped(s, cap)
    requires forall i :: 0 <= i < |steps| ==> KeepsCap(steps[i], cap)
    ensures Capped(end, cap) && PeersOk(end)
    decreases steps
  {
    if steps != [] {
      PeerStepKeeps(s, steps[0]);
      CapStepKeeps(s, steps[0], cap);
      CapRunKeeps(PeerNext(s, steps[0]), steps[1..], end, cap);
    }
  }

  lemma {:induction false} CountedRunKeeps(s: Peers, steps: seq<PeerStep>, end: Peers)
    requires PeerRun(s, steps, end) && AllCounted(s) && Set(0) !in steps
    ensures AllCounted(end)
    decreases steps
  {
    if steps != [] {
      CountedStepKeeps(s, steps[0]);
      CountedRunKeeps(PeerNext(s, steps[0]), steps[1..], end);
    }
  }

  /**
   Whatever the cap passes through, no address ever holds more counted permits than the largest cap
   so far; and if the cap was never 0, it holds no others.
   */
  lemma NoPeerExceedsCap(max: nat, threads: nat, steps: seq<PeerStep>, end: Peers, cap: nat, ip: Ip)
    requires PeerRun(StartPeers(max, threads), steps, end) && max <= cap
    requires forall i :: 0 <= i < |steps| ==> KeepsCap(steps[i], cap)
    ensures Tally(end.threads, Held(ip, true)) <= cap
    ensures max > 0 && Set(0) !in steps ==> Tally(end.threads, Held(ip, false)) == 0
  {
    StartsOk(max, threads);
    CapRunKeeps(StartPeers(max, threads), steps, end, cap);
    assert Balanced(end.threads, end.counts, ip);
    if max > 0 && Set(0) !in steps {
      CountedRunKeeps(StartPeers(max, threads), steps, end);
      assert Held(ip, false) !in end.threads;
    }
  }

  /** The first `k` threads hold uncounted permits of this address, and no other thread holds any. */
  ghost predicate FirstUncounted(s: Peers, ip: Ip, k: nat) {
    && k <= |s.threads| && s.max == 0
    && (forall t :: 0 <= t < k ==> s.threads[t] == Held(ip, false))
    && (forall t :: k <= t < |s.threads| ==> s.threads[t] == Free)
  }

  lemma {:induction false} AllTake(s: Peers, ip: Ip, k: nat, cap: nat) returns (steps: seq<PeerStep>, end: Peers)
    requires FirstUncounted(s, ip, k)
    ensures PeerRun(s, steps, end) && end.max == cap && |end.threads| == |s.threads|
    ensures forall t :: 0 <= t < |end.threads| ==> end.threads[t] == Held(ip, false)
    decreases |s.threads| - k
  {
    if k == |s.threads| {
      steps, end := [Set(cap)], s.(max := cap);
      assert steps[1..] == [] && PeerRun(end, [], end);
    } else {
      var rest: seq<PeerStep>;
      rest, end := AllTake(PeerNext(s, Load(k, ip)), ip, k + 1, cap);
      steps := [Load(k, ip)] + rest;
      assert steps[1..] == rest;
    }
  }

  lemma {:induction false} TallyAll<T>(threads: seq<T>, x: T)
    requires forall t :: 0 <= t < |threads| ==> threads[t] == x
    ensures Tally(threads, x) == |threads|
  {
    if threads != [] {
      TallyAll(threads[1..], x);
      assert threads == [threads[0]] + threads[1..];
    }
  }

  /** A cap that was 0 for a while is not enforced on the permits given out meanwhile, however many. */
  lemma ZeroLeavesUncounted(ip: Ip, n: nat, cap: nat) returns (steps: seq<PeerStep>, end: Peers)
    ensures PeerRun(StartPeers(0, n), steps, end) && end.max == cap && Tally(end.threads, Held(ip, false)) == n
  {
    steps, end := AllTake(StartPeers(0, n), ip, 0, cap);
    TallyAll(end.threads, Held(ip, false));
  }
}
