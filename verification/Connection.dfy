/**
 The keep-alive loop of one connection (`serve_over`): an incremental scan for the end of a
 request head over a buffer that grows with each read and is drained after each response.

 The loop is proved against `Answers`, which never mentions reads, buffers or resume points:
 it splits the whole input at each first CRLFCRLF.
 */
module Connection {
  import opened Bytes

  const MAX_HEADER_BYTES: nat := 8192
  const MAX_REQS_PER_CONN: nat := 1000
  const HEADER_TIMEOUT_SECS: nat := 10
  const READ_CHUNK: nat := 4096

  /** What the request handler did: the bytes it wrote, and whether the connection goes on. */
  datatype Reply = Reply(wire: string, keepAlive: bool)

  /** The request handler, given a head and whether this request may keep the connection alive. */
  type Handler = (string, bool) -> Reply

  /** The two responses the loop itself sends. */
  datatype LoopErrors = LoopErrors(headersTooLarge: string, requestTimeout: string)

  // ---------------------------------------------------------------- the simple form

  datatype Verdict = Head(end: nat) | TooLarge | NeedMore

  /** What a buffer that starts a request says about its head. */
  function Judge(s: string): (v: Verdict)
    ensures v.Head? ==> 4 <= v.end <= |s|
    ensures v.TooLarge? ==> |s| >= MAX_HEADER_BYTES
  {
    FindSpec(s, TERMINATOR);
    match Find(s, TERMINATOR)
    case Some(p) => if p + 4 > MAX_HEADER_BYTES then TooLarge else Head(p + 4)
    case None => if |s| >= MAX_HEADER_BYTES then TooLarge else NeedMore
  }

  /** One response, and the bytes it answers: a complete head, or for the loop's own 431 as many as a head may have. */
  datatype Answer = Answer(head: string, reply: Reply)

  /** All answers to an input that has arrived in full, from request number `reqs` on. */
  function Answers(h: Handler, tooLarge: string, s: string, reqs: nat): seq<Answer>
    decreases |s|
  {
    if reqs >= MAX_REQS_PER_CONN then []
    else match Judge(s)
      case NeedMore => []
      case TooLarge => [Answer(s[..MAX_HEADER_BYTES], Reply(tooLarge, false))]
      case Head(end) =>
        var r := h(s[..end], reqs + 1 < MAX_REQS_PER_CONN);
        [Answer(s[..end], r)] + if r.keepAlive then Answers(h, tooLarge, s[end..], reqs + 1) else []
  }

  function Wires(answers: seq<Answer>): string {
    if answers == [] then "" else answers[0].reply.wire + Wires(answers[1..])
  }

  function Heads(answers: seq<Answer>): string {
    if answers == [] then "" else answers[0].head + Heads(answers[1..])
  }

  // ---------------------------------------------------------------- the verdict is stable

  /** A verdict other than "read more" never changes when more bytes arrive. */
  lemma JudgeStable(s: string, t: string)
    requires Judge(s) != NeedMore
    ensures Judge(s + t) == Judge(s)
  {
    FindSpec(s, TERMINATOR);
    FindSpec(s + t, TERMINATOR);
    forall j: nat | j + 4 <= |s| ensures At(s + t, j, TERMINATOR) == At(s, j, TERMINATOR) {
      AtAppend(s, t, j, TERMINATOR);
    }
    if Find(s, TERMINATOR).Some? {
      FindUnique(s + t, TERMINATOR, Find(s, TERMINATOR));
    }
  }

  /** A head is judged the same whatever follows it. */
  lemma JudgeHead(s: string, t: string)
    requires Judge(s) == Head(|s|)
    ensures Judge(s + t) == Head(|s|)
  {
    JudgeStable(s, t);
  }

  lemma JudgePrefix(s: string, end: nat)
    requires Judge(s) == Head(end)
    ensures 4 <= end <= |s| && Judge(s[..end]) == Head(end)
  {
    var p := end - 4;
    FindSpec(s, TERMINATOR);
    assert s[..end][p..p + 4] == s[p..p + 4];
    forall j: nat | j < p ensures !At(s[..end], j, TERMINATOR) {
      assert s == s[..end] + s[end..];
      AtAppend(s[..end], s[end..], j, TERMINATOR);
    }
    FindUnique(s[..end], TERMINATOR, Some(p));
  }

  /** Input that holds no head within the limit is judged by its first bytes. */
  lemma JudgeLimit(s: string)
    requires Judge(s) == TooLarge
    ensures Judge(s[..MAX_HEADER_BYTES]) == TooLarge
  {
    var start := s[..MAX_HEADER_BYTES];
    FindSpec(s, TERMINATOR);
    forall j: nat | j + 4 <= |start| ensures !At(start, j, TERMINATOR) {
      assert s == start + s[MAX_HEADER_BYTES..];
      AtAppend(start, s[MAX_HEADER_BYTES..], j, TERMINATOR);
    }
    FindUnique(start, TERMINATOR, None);
  }

  // ---------------------------------------------------------------- accumulating one head

  datatype Awaited = Complete(end: nat) | Oversized | Expired | Ended

  function Max(a: nat, b: nat): nat { if a < b then b else a }

  /** Everything still to be read, from read number `next` on. */
  function Pending(arrivals: seq<string>, next: nat): string
    requires next <= |arrivals|
  {
    Concat(arrivals[next..])
  }

  ghost predicate ReadSizes(arrivals: seq<string>) {
    forall i :: 0 <= i < |arrivals| ==> 1 <= |arrivals[i]| <= READ_CHUNK
  }

  /** The clock readings of a head that took `count` reads, when `buffered` says that bytes of it were there before. */
  function AwaitTicks(buffered: bool, count: nat): nat {
    2 * count + if buffered then 1 else 0
  }

  /** The clock reading that starts the time limit of a head: the first one made once bytes of it are there. */
  function HeadStart(buffered: bool, firstTick: nat): nat {
    if buffered then firstTick else firstTick + 1
  }

  /** After `count` reads of a head whose first reading is `firstTick`, the time limit of the head is over. */
  predicate HeadOverdue(clock: nat -> nat, buffered: bool, firstTick: nat, count: nat) {
    && (buffered || count > 0)
    && clock(firstTick + AwaitTicks(buffered, count)) >= clock(HeadStart(buffered, firstTick)) + HEADER_TIMEOUT_SECS
  }

  /** The reading that looks at the connection's deadline after `count` reads of a head, if the head is not overdue. */
  function DeadlineTick(buffered: bool, firstTick: nat, count: nat): nat {
    firstTick + AwaitTicks(buffered, count) + if buffered || count > 0 then 1 else 0
  }

  /** The check that is made after `count` reads of a head finds both limits running. */
  predicate Passes(clock: nat -> nat, connDeadline: nat, buffered: bool, firstTick: nat, count: nat) {
    !HeadOverdue(clock, buffered, firstTick, count) && clock(DeadlineTick(buffered, firstTick, count)) < connDeadline
  }

  /** All checks pass that are made after fewer than `checks` reads of a head. */
  ghost predicate AllPass(clock: nat -> nat, connDeadline: nat, buffered: bool, firstTick: nat, checks: nat) {
    forall count: nat :: count < checks ==> Passes(clock, connDeadline, buffered, firstTick, count)
  }

  /**
   The check after `count` reads fails by reading `at`: it finds the head's time limit over, which
   reading `start` began, or else the connection's deadline.
   */
  predicate ExpiresAt(clock: nat -> nat, connDeadline: nat, buffered: bool, firstTick: nat, count: nat, start: nat, at: nat) {
    && start == HeadStart(buffered, firstTick)
    && if HeadOverdue(clock, buffered, firstTick, count) then at == firstTick + AwaitTicks(buffered, count)
       else at == DeadlineTick(buffered, firstTick, count) && clock(at) >= connDeadline
  }

  /** No terminator starts early enough to end within the first `scanned` bytes. */
  ghost predicate NoneWithin(buf: string, scanned: nat) {
    forall j: nat :: j + 4 <= scanned ==> !At(buf, j, TERMINATOR)
  }

  /** Search on from where the last search stopped; a terminator may straddle two reads. */
  method Resume(buf: string, scanned: nat) returns (found: Option<nat>, ghost searched: nat)
    requires scanned <= |buf| && NoneWithin(buf, scanned)
    ensures found == Find(buf, TERMINATOR)
    ensures found.Some? ==> scanned < found.value + 4 <= |buf|
    ensures found.None? ==> NoneWithin(buf, |buf|)
    ensures searched == |buf| - if scanned < 3 then 0 else scanned - 3
  {
    var from := if scanned < 3 then 0 else scanned - 3;
    searched := |buf| - from;
    FindFromSpec(buf, TERMINATOR, from);
    found := FindFrom(buf, TERMINATOR, from);
    FindUnique(buf, TERMINATOR, found);
    FindSpec(buf, TERMINATOR);
  }

  /** What the buffer says about its head, judged from where the last search stopped. */
  method Scan(buf: string, scanned: nat) returns (verdict: Verdict, ghost searched: nat)
    requires scanned <= |buf| && NoneWithin(buf, scanned)
    ensures verdict == Judge(buf)
    ensures verdict.Head? ==> scanned < verdict.end
    ensures verdict.NeedMore? ==> NoneWithin(buf, |buf|) && |buf| < MAX_HEADER_BYTES
    ensures searched == |buf| - if scanned < 3 then 0 else scanned - 3
  {
    var found;
    found, searched := Resume(buf, scanned);
    if found.Some? {
      var end := found.value + 4;
      // the buffer can hold more than the limit, so a head that was found is measured too
      return if end > MAX_HEADER_BYTES then TooLarge else Head(end), searched;
    }
    return if |buf| >= MAX_HEADER_BYTES then TooLarge else NeedMore, searched;
  }

  lemma NoneWithinGrows(buf: string, more: string)
    requires NoneWithin(buf, |buf|)
    ensures NoneWithin(buf + more, |buf|)
  {
    forall j: nat | j + 4 <= |buf| ensures !At(buf + more, j, TERMINATOR) {
      AtAppend(buf, more, j, TERMINATOR);
    }
  }

  /** Look at the head's own time limit, and only then at the connection's. */
  method CheckTime(headStart: Option<nat>, clock: nat -> nat, tick: nat, connDeadline: nat, ghost buffered: bool, ghost firstTick: nat, ghost count: nat)
    returns (expired: bool, next: nat)
    requires tick == firstTick + AwaitTicks(buffered, count)
    requires headStart == if buffered || count > 0 then Some(clock(HeadStart(buffered, firstTick))) else None
    ensures expired == !Passes(clock, connDeadline, buffered, firstTick, count)
    ensures next > tick && (!expired ==> next == DeadlineTick(buffered, firstTick, count) + 1)
    ensures expired ==> ExpiresAt(clock, connDeadline, buffered, firstTick, count, HeadStart(buffered, firstTick), next - 1)
  {
    expired, next := false, tick;
    if headStart.Some? {
      expired := clock(next) >= headStart.value + HEADER_TIMEOUT_SECS;
      next := next + 1;
    }
    if !expired {
      expired := clock(next) >= connDeadline;
      next := next + 1;
    }
  }

  lemma OneMorePasses(clock: nat -> nat, connDeadline: nat, buffered: bool, firstTick: nat, checks: nat)
    requires AllPass(clock, connDeadline, buffered, firstTick, checks) && Passes(clock, connDeadline, buffered, firstTick, checks)
    ensures AllPass(clock, connDeadline, buffered, firstTick, checks + 1)
  {
  }

  /** Where the loop that awaits a head stands: the buffer, how much of it is searched, and the readings made. */
  ghost predicate Awaiting(initial: string, arrivals: seq<string>, first: nat, clock: nat -> nat, firstTick: nat, connDeadline: nat,
                           buf: string, scanned: nat, next: nat, headStart: Option<nat>, tick: nat)
    requires first <= next <= |arrivals|
  {
    && buf + Pending(arrivals, next) == initial + Pending(arrivals, first)
    && |buf| <= Max(|initial|, MAX_HEADER_BYTES - 1 + READ_CHUNK)
    && scanned <= |buf| && NoneWithin(buf, scanned)
    && (next > first ==> scanned + |arrivals[next - 1]| == |buf|) && scanned < MAX_HEADER_BYTES
    && tick == firstTick + AwaitTicks(initial != "", next - first)
    && headStart == (if initial != "" || next > first then Some(clock(HeadStart(initial != "", firstTick))) else None)
    && AllPass(clock, connDeadline, initial != "", firstTick, next - first)
  }

  /**
   What is decided after `count` reads, with `next` as the first reading not made yet: the buffer is
   judged first, and only if it holds neither a head nor too much, the clock is asked. `Ended` stands
   for an input that has no more to read.
   */
  ghost predicate Decided(clock: nat -> nat, connDeadline: nat, buffered: bool, firstTick: nat, count: nat, buf: string, outcome: Awaited, next: nat) {
    match Judge(buf)
    case Head(end) => outcome == Complete(end) && next == firstTick + AwaitTicks(buffered, count)
    case TooLarge => outcome == Oversized && next == firstTick + AwaitTicks(buffered, count)
    case NeedMore =>
      if Passes(clock, connDeadline, buffered, firstTick, count)
      then outcome == Ended && next == DeadlineTick(buffered, firstTick, count) + 1
      else outcome == Expired && next > firstTick
           && ExpiresAt(clock, connDeadline, buffered, firstTick, count, HeadStart(buffered, firstTick), next - 1)
  }

  /** The length at which a verdict was due: that of the head, or the limit. */
  function Due(v: Verdict): nat {
    if v.Head? then v.end else MAX_HEADER_BYTES
  }

  /** A decision on all that was read so far, when every check before it passed. */
  ghost predicate HeadDecided(initial: string, arrivals: seq<string>, first: nat, clock: nat -> nat, firstTick: nat, connDeadline: nat,
                              buf: string, next: nat, outcome: Awaited, tick: nat)
    requires first <= next <= |arrivals|
  {
    && buf + Pending(arrivals, next) == initial + Pending(arrivals, first)
    && |buf| <= Max(|initial|, MAX_HEADER_BYTES - 1 + READ_CHUNK)
    && (next > first ==> |buf| < Due(Judge(buf)) + |arrivals[next - 1]|)
    && Decided(clock, connDeadline, initial != "", firstTick, next - first, buf, outcome, tick)
    && AllPass(clock, connDeadline, initial != "", firstTick, next - first + if outcome == Ended then 1 else 0)
  }

  /** Decide what there is to decide before the next read. */
  method Decide(ghost initial: string, ghost arrivals: seq<string>, ghost first: nat, clock: nat -> nat, ghost firstTick: nat, connDeadline: nat,
                buf: string, scanned: nat, ghost next: nat, headStart: Option<nat>, tick: nat)
    returns (outcome: Awaited, tick': nat, ghost searched: nat)
    requires first <= next <= |arrivals|
    requires Awaiting(initial, arrivals, first, clock, firstTick, connDeadline, buf, scanned, next, headStart, tick)
    ensures HeadDecided(initial, arrivals, first, clock, firstTick, connDeadline, buf, next, outcome, tick')
    ensures searched == |buf| - if scanned < 3 then 0 else scanned - 3
  {
    outcome, tick' := Ended, tick;
    var verdict;
    verdict, searched := Scan(buf, scanned);
    match verdict {
      case Head(end) => outcome := Complete(end);
      case TooLarge => outcome := Oversized;
      case NeedMore =>
        var expired;
        expired, tick' := CheckTime(headStart, clock, tick, connDeadline, initial != "", firstTick, next - first);
        if expired {
          outcome := Expired;
        } else {
          OneMorePasses(clock, connDeadline, initial != "", firstTick, next - first);
        }
    }
  }

  /** One read: it starts the time limit of a head that had no bytes yet. */
  method ReadMore(ghost initial: string, arrivals: seq<string>, ghost first: nat, clock: nat -> nat, ghost firstTick: nat, ghost connDeadline: nat,
                  buf: string, next: nat, headStart: Option<nat>, tick: nat)
    returns (buf': string, headStart': Option<nat>, tick': nat)
    requires first <= next < |arrivals| && ReadSizes(arrivals)
    requires HeadDecided(initial, arrivals, first, clock, firstTick, connDeadline, buf, next, Ended, tick)
    requires headStart == if initial != "" || next > first then Some(clock(HeadStart(initial != "", firstTick))) else None
    ensures buf' == buf + arrivals[next] && |buf| < |buf'|
    ensures Awaiting(initial, arrivals, first, clock, firstTick, connDeadline, buf', |buf|, next + 1, headStart', tick')
  {
    headStart', tick' := headStart, tick;
    if headStart.None? {
      headStart', tick' := Some(clock(tick)), tick + 1;
    }
    FindSpec(buf, TERMINATOR);
    NoneWithinGrows(buf, arrivals[next]);
    assert Pending(arrivals, next) == arrivals[next] + Pending(arrivals, next + 1);
    buf' := buf + arrivals[next];
  }

  /**
   Read until the buffer holds a full head, is too large, or the request cannot be completed.
   `clock(k)` is the result of the k-th clock reading of the connection. The reads end with a
   closed or failed stream, which the loop treats alike.
   */
  method AwaitHead(initial: string, arrivals: seq<string>, first: nat, clock: nat -> nat, firstTick: nat, connDeadline: nat)
    returns (outcome: Awaited, buf: string, next: nat, tick: nat, ghost searched: nat)
    requires first <= |arrivals| && ReadSizes(arrivals)
    ensures first <= next <= |arrivals| && (outcome == Ended ==> next == |arrivals|)
    ensures HeadDecided(initial, arrivals, first, clock, firstTick, connDeadline, buf, next, outcome, tick)
    ensures searched <= 4 * |buf|
  {
    buf, next, tick, searched := initial, first, firstTick, 0;
    var headStart: Option<nat> := None;
    if buf != "" {
      headStart := Some(clock(tick));
      tick := tick + 1;
    }
    var scanned: nat := 0;
    while true
      invariant first <= next <= |arrivals|
      invariant Awaiting(initial, arrivals, first, clock, firstTick, connDeadline, buf, scanned, next, headStart, tick)
      invariant searched <= 4 * scanned && (scanned == |buf| ==> buf == "")
      decreases |arrivals| - next
    {
      ghost var cost;
      outcome, tick, cost := Decide(initial, arrivals, first, clock, firstTick, connDeadline, buf, scanned, next, headStart, tick);
      searched := searched + cost;
      if outcome != Ended || next == |arrivals| {
        break;
      }
      scanned := |buf|;
      buf, headStart, tick := ReadMore(initial, arrivals, first, clock, firstTick, connDeadline, buf, next, headStart, tick);
      next := next + 1;
    }
  }

  // ---------------------------------------------------------------- the connection loop

  /** Serving `done` produced the answers `sent` over `reqs` requests and left the connection open. */
  ghost predicate Served(h: Handler, tooLarge: string, done: string, sent: seq<Answer>, reqs: nat) {
    forall rest: string :: Continues(h, tooLarge, done, sent, reqs, rest)
  }

  ghost predicate Continues(h: Handler, tooLarge: string, done: string, sent: seq<Answer>, reqs: nat, rest: string) {
    Answers(h, tooLarge, done + rest, 0) == sent + Answers(h, tooLarge, rest, reqs)
  }

  lemma AnswerHead(h: Handler, tooLarge: string, head: string, rest: string, reqs: nat)
    requires reqs < MAX_REQS_PER_CONN && Judge(head) == Head(|head|)
    ensures var r := h(head, reqs + 1 < MAX_REQS_PER_CONN);
            Answers(h, tooLarge, head + rest, reqs)
            == [Answer(head, r)] + if r.keepAlive then Answers(h, tooLarge, rest, reqs + 1) else []
  {
    JudgeHead(head, rest);
    assert (head + rest)[..|head|] == head && (head + rest)[|head|..] == rest;
  }

  lemma ServeOne(h: Handler, tooLarge: string, done: string, sent: seq<Answer>, reqs: nat, head: string)
    requires Served(h, tooLarge, done, sent, reqs)
    requires reqs < MAX_REQS_PER_CONN && Judge(head) == Head(|head|)
    requires h(head, reqs + 1 < MAX_REQS_PER_CONN).keepAlive
    ensures Served(h, tooLarge, done + head, sent + [Answer(head, h(head, reqs + 1 < MAX_REQS_PER_CONN))], reqs + 1)
  {
    var answer := Answer(head, h(head, reqs + 1 < MAX_REQS_PER_CONN));
    var done', sent', reqs' := done + head, sent + [answer], reqs + 1;
    forall rest: string ensures Continues(h, tooLarge, done', sent', reqs', rest) {
      ServeStep(h, tooLarge, done, sent, reqs, head, rest);
    }
  }

  lemma ServeStep(h: Handler, tooLarge: string, done: string, sent: seq<Answer>, reqs: nat, head: string, rest: string)
    requires Continues(h, tooLarge, done, sent, reqs, head + rest)
    requires reqs < MAX_REQS_PER_CONN && Judge(head) == Head(|head|)
    requires h(head, reqs + 1 < MAX_REQS_PER_CONN).keepAlive
    ensures Continues(h, tooLarge, done + head, sent + [Answer(head, h(head, reqs + 1 < MAX_REQS_PER_CONN))], reqs + 1, rest)
  {
    AnswerHead(h, tooLarge, head, rest, reqs);
    Assoc(done, head, rest);
    var answer := Answer(head, h(head, reqs + 1 < MAX_REQS_PER_CONN));
    AnswersAssoc(sent, answer, Answers(h, tooLarge, rest, reqs + 1), Answers(h, tooLarge, head + rest, reqs));
  }

  lemma AnswersAssoc(sent: seq<Answer>, answer: Answer, rest: seq<Answer>, all: seq<Answer>)
    requires all == [answer] + rest
    ensures sent + all == sent + [answer] + rest
  {
  }

  /** The last answers of a connection: nothing, the loop's own 431, or a handler that closes. */
  function Last(h: Handler, tooLarge: string, rest: string, reqs: nat): seq<Answer> {
    match Judge(rest)
    case NeedMore => []
    case TooLarge => [Answer(rest[..MAX_HEADER_BYTES], Reply(tooLarge, false))]
    case Head(end) => [Answer(rest[..end], h(rest[..end], reqs + 1 < MAX_REQS_PER_CONN))]
  }

  lemma ServedNothing(h: Handler, tooLarge: string)
    ensures Served(h, tooLarge, "", [], 0)
  {
    forall rest: string ensures Continues(h, tooLarge, "", [], 0, rest) {
      assert "" + rest == rest;
    }
  }

  lemma AnswersLast(h: Handler, tooLarge: string, done: string, sent: seq<Answer>, reqs: nat, rest: string, last: seq<Answer>)
    requires Served(h, tooLarge, done, sent, reqs) && reqs < MAX_REQS_PER_CONN
    requires last == Last(h, tooLarge, rest, reqs) && forall answer :: answer in last ==> !answer.reply.keepAlive
    ensures Answers(h, tooLarge, done + rest, 0) == sent + last
  {
    assert Continues(h, tooLarge, done, sent, reqs, rest);
    LastIsAll(h, tooLarge, rest, reqs, last);
  }

  lemma LastIsAll(h: Handler, tooLarge: string, rest: string, reqs: nat, last: seq<Answer>)
    requires last == Last(h, tooLarge, rest, reqs) && reqs < MAX_REQS_PER_CONN && forall answer :: answer in last ==> !answer.reply.keepAlive
    ensures Answers(h, tooLarge, rest, reqs) == last
  {
    if Judge(rest).Head? {
      assert last[0] in last;
    }
  }

  lemma {:induction false} WiresSnoc(sent: seq<Answer>, last: Answer)
    ensures Wires(sent + [last]) == Wires(sent) + last.reply.wire
  {
    if sent == [] {
      assert [last][1..] == [];
      assert Wires([last]) == last.reply.wire + "";
    } else {
      assert (sent + [last])[1..] == sent[1..] + [last];
      WiresSnoc(sent[1..], last);
    }
  }

  /** `out` is the output of the simple form on the first `cut` bytes, plus a 408 if `timedOut`. */
  ghost predicate Truncates(h: Handler, errs: LoopErrors, whole: string, out: string, cut: nat, timedOut: bool) {
    cut <= |whole| &&
    out == Wires(Answers(h, errs.headersTooLarge, whole[..cut], 0)) + if timedOut then errs.requestTimeout else ""
  }

  // ---------------------------------------------------------------- where a connection stands

  /**
   What a connection gets: the bytes already buffered, those that each read will return, the result
   of each clock reading, and the end of its life.
   */
  datatype Input = Input(initial: string, arrivals: seq<string>, clock: nat -> nat, deadline: nat) {
    function Whole(): string {
      initial + Concat(arrivals)
    }

    /** How many bytes are there after `n` reads. */
    function Received(n: nat): nat
      requires n <= |arrivals|
    {
      |initial| + |Concat(arrivals[..n])|
    }
  }

  /** Clock readings made, reads consumed and bytes answered, at the start of a turn. */
  datatype Position = Position(tick: nat, next: nat, done: nat)

  /** The reads needed before `end` bytes are there. */
  function ReadsUntil(input: Input, first: nat, end: nat): (n: nat)
    requires first <= |input.arrivals|
    ensures first <= n <= |input.arrivals|
    decreases |input.arrivals| - first
  {
    if first == |input.arrivals| || input.Received(first) >= end then first else ReadsUntil(input, first + 1, end)
  }

  predicate Buffered(input: Input, p: Position)
    requires p.next <= |input.arrivals|
  {
    input.Received(p.next) > p.done
  }

  /** A turn that answers a head of this length: two readings, and those that its reads take. */
  function NextPosition(input: Input, p: Position, length: nat): (q: Position)
    requires p.next <= |input.arrivals|
    ensures q.next <= |input.arrivals|
  {
    var next := ReadsUntil(input, p.next, p.done + length);
    Position(p.tick + 2 + AwaitTicks(Buffered(input, p), next - p.next), next, p.done + length)
  }

  /** Where a connection stands once these answers are out. */
  function AfterTurns(input: Input, answers: seq<Answer>): (p: Position)
    ensures p.next <= |input.arrivals|
  {
    if answers == [] then Position(0, 0, 0)
    else NextPosition(input, AfterTurns(input, answers[..|answers| - 1]), |answers[|answers| - 1].head|)
  }

  /** The turn that starts at `p` is in time until it has made this many checks of its head. */
  ghost predicate InTime(input: Input, p: Position, checks: nat)
    requires p.next <= |input.arrivals|
  {
    input.clock(p.tick) < input.deadline && AllPass(input.clock, input.deadline, Buffered(input, p), p.tick + 2, checks)
  }

  /** No clock reading made up to these answers found a limit over: one check for each read that they took. */
  ghost predicate TurnsInTime(input: Input, answers: seq<Answer>) {
    answers != [] ==>
      && var before, p := answers[..|answers| - 1], AfterTurns(input, answers[..|answers| - 1]);
         TurnsInTime(input, before) && InTime(input, p, NextPosition(input, p, |answers[|answers| - 1].head|).next - p.next)
  }

  lemma ReceivedGrows(input: Input, n: nat)
    requires n < |input.arrivals|
    ensures input.Received(n + 1) == input.Received(n) + |input.arrivals[n]|
  {
    assert input.arrivals[..n + 1] == input.arrivals[..n] + [input.arrivals[n]];
    ConcatSnoc(input.arrivals[..n], input.arrivals[n]);
  }

  lemma {:induction false} ReceivedMonotone(input: Input, n: nat, m: nat)
    requires n <= m <= |input.arrivals|
    ensures input.Received(n) <= input.Received(m)
  {
    if n < m {
      ReceivedMonotone(input, n, m - 1);
      ReceivedGrows(input, m - 1);
    }
  }

  lemma ReceivedAndPending(input: Input, n: nat)
    requires n <= |input.arrivals|
    ensures |input.Whole()| == input.Received(n) + |Pending(input.arrivals, n)|
  {
    assert input.arrivals == input.arrivals[..n] + input.arrivals[n..];
    ConcatAppend(input.arrivals[..n], input.arrivals[n..]);
  }

  /** The reads that sufficed, when one fewer did not. */
  lemma {:induction false} ReadsUntilIs(input: Input, first: nat, next: nat, end: nat)
    requires first <= next <= |input.arrivals| && input.Received(next) >= end
    requires next > first ==> input.Received(next - 1) < end
    ensures ReadsUntil(input, first, end) == next
    decreases next - first
  {
    if first < next {
      ReceivedMonotone(input, first, next - 1);
      ReadsUntilIs(input, first + 1, next, end);
    }
  }

  /** Served so far: `sent` answers the bytes `done`, every answer kept the connection open, and `left` is to come. */
  ghost predicate Tracks(h: Handler, tooLarge: string, input: Input, out: string, reqs: nat, left: string, p: Position, done: string, sent: seq<Answer>) {
    && Served(h, tooLarge, done, sent, reqs) && input.Whole() == done + left && out == Wires(sent)
    && p == AfterTurns(input, sent) && p.done == |done| && |sent| == reqs && TurnsInTime(input, sent)
    && forall i :: 0 <= i < |sent| ==> sent[i].reply.keepAlive
  }

  /**
   After `reqs` requests the connection has sent `out`, is still open, and `left` is the part of
   the input that is not answered yet; `p` counts what it took.
   */
  ghost predicate OnTrack(h: Handler, tooLarge: string, input: Input, out: string, reqs: nat, left: string, p: Position) {
    exists done: string, sent: seq<Answer> :: Tracks(h, tooLarge, input, out, reqs, left, p, done, sent)
  }

  lemma OnTrackStart(h: Handler, tooLarge: string, input: Input)
    ensures OnTrack(h, tooLarge, input, "", 0, input.Whole(), Position(0, 0, 0))
  {
    ServedNothing(h, tooLarge);
    assert input.Whole() == "" + input.Whole();
    assert Tracks(h, tooLarge, input, "", 0, input.Whole(), Position(0, 0, 0), "", []);
  }

  /** The buffer at the start of a turn is what was received and not answered. */
  lemma OnTrackBuffer(h: Handler, tooLarge: string, input: Input, out: string, reqs: nat, buf: string, p: Position)
    requires p.next <= |input.arrivals|
    requires OnTrack(h, tooLarge, input, out, reqs, buf + Pending(input.arrivals, p.next), p)
    ensures input.Received(p.next) == p.done + |buf| && (Buffered(input, p) <==> buf != "")
  {
    ReceivedAndPending(input, p.next);
  }

  lemma AfterTurnsSnoc(input: Input, sent: seq<Answer>, last: Answer)
    ensures var p := AfterTurns(input, sent);
            var q := NextPosition(input, p, |last.head|);
            && AfterTurns(input, sent + [last]) == q
            && (TurnsInTime(input, sent) && InTime(input, p, q.next - p.next) ==> TurnsInTime(input, sent + [last]))
  {
    assert (sent + [last])[..|sent|] == sent;
  }

  lemma TracksStep(h: Handler, tooLarge: string, input: Input, out: string, reqs: nat, head: string, left: string, p: Position,
                   done: string, sent: seq<Answer>, answer: Answer, sent': seq<Answer>, q: Position)
    requires Tracks(h, tooLarge, input, out, reqs, head + left, p, done, sent) && reqs < MAX_REQS_PER_CONN && p.next <= |input.arrivals|
    requires Judge(head) == Head(|head|) && answer == Answer(head, h(head, reqs + 1 < MAX_REQS_PER_CONN)) && answer.reply.keepAlive
    requires q == NextPosition(input, p, |head|) && InTime(input, p, q.next - p.next) && sent' == sent + [answer]
    ensures Tracks(h, tooLarge, input, out + answer.reply.wire, reqs + 1, left, q, done + head, sent')
  {
    ServeOne(h, tooLarge, done, sent, reqs, head);
    WiresSnoc(sent, answer);
    AfterTurnsSnoc(input, sent, answer);
    Assoc(done, head, left);
  }

  lemma OnTrackStep(h: Handler, tooLarge: string, input: Input, out: string, reqs: nat, head: string, left: string, p: Position)
    requires OnTrack(h, tooLarge, input, out, reqs, head + left, p) && reqs < MAX_REQS_PER_CONN && p.next <= |input.arrivals|
    requires Judge(head) == Head(|head|) && h(head, reqs + 1 < MAX_REQS_PER_CONN).keepAlive
    requires InTime(input, p, NextPosition(input, p, |head|).next - p.next)
    ensures OnTrack(h, tooLarge, input, out + h(head, reqs + 1 < MAX_REQS_PER_CONN).wire, reqs + 1, left, NextPosition(input, p, |head|))
  {
    var done: string, sent: seq<Answer> :| Tracks(h, tooLarge, input, out, reqs, head + left, p, done, sent);
    var answer := Answer(head, h(head, reqs + 1 < MAX_REQS_PER_CONN));
    TracksStep(h, tooLarge, input, out, reqs, head, left, p, done, sent, answer, sent + [answer], NextPosition(input, p, |head|));
  }

  /** How a connection ends: `used` is all that is left of the input up to `cut`, and `sent` went before. */
  lemma OnTrackLast(h: Handler, tooLarge: string, input: Input, out: string, reqs: nat, left: string, used: string, p: Position, last: seq<Answer>)
    returns (cut: nat, sent: seq<Answer>, all: seq<Answer>)
    requires OnTrack(h, tooLarge, input, out, reqs, left, p) && reqs < MAX_REQS_PER_CONN && used <= left
    requires last == Last(h, tooLarge, used, reqs) && forall answer :: answer in last ==> !answer.reply.keepAlive
    ensures cut == p.done + |used| <= |input.Whole()| && (used == left ==> cut == |input.Whole()|)
    ensures all == sent + last && (last == [] ==> all == sent)
    ensures all == Answers(h, tooLarge, input.Whole()[..cut], 0) && out == Wires(sent)
    ensures |sent| == reqs && StillOpen(sent) && AfterTurns(input, sent) == p && TurnsInTime(input, sent)
  {
    var done: string, sent' :| Tracks(h, tooLarge, input, out, reqs, left, p, done, sent');
    sent := sent';
    AnswersLast(h, tooLarge, done, sent, reqs, used, last);
    cut, all := |done + used|, sent + last;
    assert input.Whole()[..cut] == done + used;
  }

  lemma TurnOpen(h: Handler, tooLarge: string, input: Input, out: string, reqs: nat, buf: string, rest: string, p: Position, end: nat)
    requires OnTrack(h, tooLarge, input, out, reqs, buf + rest, p) && reqs < MAX_REQS_PER_CONN && p.next <= |input.arrivals|
    requires Judge(buf) == Head(end) && h(buf[..end], reqs + 1 < MAX_REQS_PER_CONN).keepAlive
    requires InTime(input, p, NextPosition(input, p, end).next - p.next)
    ensures OnTrack(h, tooLarge, input, out + h(buf[..end], reqs + 1 < MAX_REQS_PER_CONN).wire, reqs + 1, buf[end..] + rest, NextPosition(input, p, end))
  {
    JudgePrefix(buf, end);
    assert buf + rest == buf[..end] + (buf[end..] + rest);
    OnTrackStep(h, tooLarge, input, out, reqs, buf[..end], buf[end..] + rest, p);
  }

  /** The reads and readings that the loop made for a head are those of `NextPosition`. */
  lemma TurnTicks(input: Input, p: Position, buf: string, rest: string, next: nat, end: nat)
    requires p.next <= next <= |input.arrivals| && rest == Pending(input.arrivals, next)
    requires |input.Whole()| == p.done + |buf + rest| && end <= |buf|
    requires next > p.next ==> |buf| < end + |input.arrivals[next - 1]|
    ensures NextPosition(input, p, end) == Position(p.tick + 2 + AwaitTicks(Buffered(input, p), next - p.next), next, p.done + end)
  {
    ReceivedAndPending(input, next);
    if next > p.next {
      ReceivedGrows(input, next - 1);
    }
    ReadsUntilIs(input, p.next, next, p.done + end);
  }

  lemma WholeOutput(h: Handler, errs: LoopErrors, whole: string, out: string, cut: nat, timedOut: bool)
    ensures Truncates(h, errs, whole, out, cut, timedOut) && cut == |whole| && !timedOut ==>
              out == Wires(Answers(h, errs.headersTooLarge, whole, 0))
    ensures cut == |whole| && !timedOut && out == Wires(Answers(h, errs.headersTooLarge, whole[..cut], 0)) ==>
              Truncates(h, errs, whole, out, cut, timedOut)
  {
    assert whole[..|whole|] == whole && out + "" == out;
    if cut <= |whole| {
      var sent := Wires(Answers(h, errs.headersTooLarge, whole[..cut], 0));
      assert sent + "" == sent;
    }
  }

  /**
   Whether a deadline ended the connection, and which clock reading found it over: the first one of
   a turn, which closes silently, or one made while a head was awaited, which is answered 408.
   */
  datatype Lateness = OnTime | BetweenRequests(at: nat) | AwaitingHead(start: nat, at: nat)

  /** The turn in which a head never came, because the input ended or because a limit was over. */
  ghost predicate LastTurn(input: Input, p: Position, cut: nat, late: Lateness)
    requires p.next <= |input.arrivals|
  {
    match late
    case OnTime => InTime(input, p, |input.arrivals| - p.next + 1)
    case BetweenRequests(at) => cut == p.done && at == p.tick && input.clock(at) >= input.deadline
    case AwaitingHead(start, at) => exists next: nat :: ExpiresIn(input, p, next, cut, start, at)
  }

  /** The turn that starts at `p` made its reads up to `next` in time, and its next check failed by reading `at`. */
  ghost predicate ExpiresIn(input: Input, p: Position, next: nat, cut: nat, start: nat, at: nat)
    requires p.next <= |input.arrivals|
  {
    && p.next <= next <= |input.arrivals| && cut == input.Received(next) && InTime(input, p, next - p.next)
    && ExpiresAt(input.clock, input.deadline, Buffered(input, p), p.tick + 2, next - p.next, start, at)
  }

  /**
   All readings of the clock that the connection made. Those up to the last answer found no limit
   over; if the connection was then still open, its last turn ended with the input in time, or by
   the very reading that `late` names, after the input up to `cut` had arrived.
   */
  ghost predicate KeepsTime(h: Handler, tooLarge: string, input: Input, cut: nat, late: Lateness) {
    cut <= |input.Whole()| && Timed(input, Answers(h, tooLarge, input.Whole()[..cut], 0), cut, late)
  }

  ghost predicate Timed(input: Input, answers: seq<Answer>, cut: nat, late: Lateness) {
    && TurnsInTime(input, answers)
    && (late == OnTime ==> cut == |input.Whole()|)
    && if StillOpen(answers) && |answers| < MAX_REQS_PER_CONN then LastTurn(input, AfterTurns(input, answers), cut, late) else late == OnTime
  }

  lemma TimedOpen(input: Input, answers: seq<Answer>, p: Position, cut: nat, late: Lateness)
    requires StillOpen(answers) && |answers| < MAX_REQS_PER_CONN && TurnsInTime(input, answers)
    requires p == AfterTurns(input, answers) && LastTurn(input, p, cut, late) && (late == OnTime ==> cut == |input.Whole()|)
    ensures Timed(input, answers, cut, late)
  {
  }

  lemma TimedClosed(input: Input, sent: seq<Answer>, last: Answer, answers: seq<Answer>, p: Position)
    requires answers == sent + [last] && !last.reply.keepAlive
    requires TurnsInTime(input, sent) && p == AfterTurns(input, sent) && InTime(input, p, NextPosition(input, p, |last.head|).next - p.next)
    ensures Timed(input, answers, |input.Whole()|, OnTime)
  {
    AfterTurnsSnoc(input, sent, last);
  }

  /** How the loop ended the connection: what it sent, for how much of the input, and which limit ended it, if any. */
  ghost predicate Ends(h: Handler, errs: LoopErrors, input: Input, sent: string, cut: nat, late: Lateness) {
    exists answers: seq<Answer> :: EndsWith(h, errs, input, answers, sent, cut, late)
  }

  ghost predicate EndsWith(h: Handler, errs: LoopErrors, input: Input, answers: seq<Answer>, sent: string, cut: nat, late: Lateness) {
    && cut <= |input.Whole()| && answers == Answers(h, errs.headersTooLarge, input.Whole()[..cut], 0)
    && sent == Wires(answers) + (if late.AwaitingHead? then errs.requestTimeout else "")
    && Timed(input, answers, cut, late)
  }

  lemma EndsMeans(h: Handler, errs: LoopErrors, input: Input, sent: string, cut: nat, late: Lateness)
    requires Ends(h, errs, input, sent, cut, late)
    ensures Truncates(h, errs, input.Whole(), sent, cut, late.AwaitingHead?)
    ensures KeepsTime(h, errs.headersTooLarge, input, cut, late)
  {
  }

  /** No head came: the input up to `cut` has arrived, and was answered as far as it goes. */
  lemma EndIncomplete(h: Handler, tooLarge: string, input: Input, out: string, reqs: nat, buf: string, left: string, p: Position)
    returns (cut: nat, sent: seq<Answer>)
    requires OnTrack(h, tooLarge, input, out, reqs, left, p) && reqs < MAX_REQS_PER_CONN
    requires Judge(buf) == NeedMore && buf <= left
    ensures cut == p.done + |buf| <= |input.Whole()| && (buf == left ==> cut == |input.Whole()|)
    ensures sent == Answers(h, tooLarge, input.Whole()[..cut], 0) && out == Wires(sent)
    ensures |sent| == reqs && StillOpen(sent) && AfterTurns(input, sent) == p && TurnsInTime(input, sent)
  {
    NoLast(h, tooLarge, buf, reqs);
    var all;
    cut, sent, all := OnTrackLast(h, tooLarge, input, out, reqs, left, buf, p, []);
  }

  lemma NoLast(h: Handler, tooLarge: string, buf: string, reqs: nat)
    requires Judge(buf) == NeedMore
    ensures Last(h, tooLarge, buf, reqs) == []
  {
  }

  lemma StillSent(h: Handler, errs: LoopErrors, input: Input, sent: seq<Answer>, out: string, p: Position, cut: nat, late: Lateness)
    requires cut <= |input.Whole()| && sent == Answers(h, errs.headersTooLarge, input.Whole()[..cut], 0)
    requires StillOpen(sent) && |sent| < MAX_REQS_PER_CONN && TurnsInTime(input, sent)
    requires p == AfterTurns(input, sent) && LastTurn(input, p, cut, late) && (late == OnTime ==> cut == |input.Whole()|)
    requires out == Wires(sent) + if late.AwaitingHead? then errs.requestTimeout else ""
    ensures Ends(h, errs, input, out, cut, late)
  {
    TimedOpen(input, sent, p, cut, late);
    assert EndsWith(h, errs, input, sent, out, cut, late);
  }

  /** The last answer: the loop's own 431, or a response after which the handler closes. */
  lemma EndAnswered(h: Handler, errs: LoopErrors, input: Input, out: string, reqs: nat, left: string, p: Position, answer: Answer)
    requires OnTrack(h, errs.headersTooLarge, input, out, reqs, left, p) && reqs < MAX_REQS_PER_CONN && p.next <= |input.arrivals|
    requires Last(h, errs.headersTooLarge, left, reqs) == [answer] && !answer.reply.keepAlive
    requires InTime(input, p, NextPosition(input, p, |answer.head|).next - p.next)
    ensures Ends(h, errs, input, out + answer.reply.wire, |input.Whole()|, OnTime)
  {
    var cut, sent, all := OnTrackLast(h, errs.headersTooLarge, input, out, reqs, left, left, p, [answer]);
    LastSent(h, errs, input, sent, answer, all, p);
  }

  lemma LastSent(h: Handler, errs: LoopErrors, input: Input, sent: seq<Answer>, answer: Answer, answers: seq<Answer>, p: Position)
    requires answers == sent + [answer] == Answers(h, errs.headersTooLarge, input.Whole()[..|input.Whole()|], 0)
    requires TurnsInTime(input, sent) && p == AfterTurns(input, sent) && !answer.reply.keepAlive
    requires InTime(input, p, NextPosition(input, p, |answer.head|).next - p.next)
    ensures Ends(h, errs, input, Wires(sent) + answer.reply.wire, |input.Whole()|, OnTime)
  {
    TimedClosed(input, sent, answer, answers, p);
    WiresSnoc(sent, answer);
    var out := Wires(answers);
    assert out + "" == out;
    assert EndsWith(h, errs, input, answers, out, |input.Whole()|, OnTime);
  }

  /** A turn that found the connection over before it looked for a head. */
  lemma TurnTooLate(h: Handler, errs: LoopErrors, input: Input, out: string, reqs: nat, left: string, p: Position) returns (cut: nat)
    requires p.next <= |input.arrivals| && reqs < MAX_REQS_PER_CONN && OnTrack(h, errs.headersTooLarge, input, out, reqs, left, p)
    requires input.clock(p.tick) >= input.deadline
    ensures Ends(h, errs, input, out, cut, BetweenRequests(p.tick))
  {
    assert out + "" == out;
    var sent;
    cut, sent := EndIncomplete(h, errs.headersTooLarge, input, out, reqs, "", left, p);
    StillSent(h, errs, input, sent, out, p, cut, BetweenRequests(p.tick));
  }

  /** A head that was not complete in time. */
  lemma TurnExpired(h: Handler, errs: LoopErrors, input: Input, out: string, reqs: nat, buf: string, p: Position, next: nat, late: Lateness)
    returns (cut: nat)
    requires p.next <= next <= |input.arrivals| && reqs < MAX_REQS_PER_CONN
    requires OnTrack(h, errs.headersTooLarge, input, out, reqs, buf + Pending(input.arrivals, next), p)
    requires Judge(buf) == NeedMore && late.AwaitingHead? && InTime(input, p, next - p.next)
    requires ExpiresAt(input.clock, input.deadline, Buffered(input, p), p.tick + 2, next - p.next, late.start, late.at)
    ensures Ends(h, errs, input, out + errs.requestTimeout, cut, late)
  {
    TrackLength(h, errs.headersTooLarge, input, out, reqs, buf + Pending(input.arrivals, next), p);
    ReceivedAndPending(input, next);
    var sent;
    cut, sent := EndIncomplete(h, errs.headersTooLarge, input, out, reqs, buf, buf + Pending(input.arrivals, next), p);
    assert ExpiresIn(input, p, next, cut, late.start, late.at);
    StillSent(h, errs, input, sent, out + errs.requestTimeout, p, cut, late);
  }

  /** The input ended before a head was complete. */
  lemma TurnEnded(h: Handler, errs: LoopErrors, input: Input, out: string, reqs: nat, buf: string, p: Position) returns (cut: nat)
    requires p.next <= |input.arrivals| && reqs < MAX_REQS_PER_CONN
    requires OnTrack(h, errs.headersTooLarge, input, out, reqs, buf + Pending(input.arrivals, |input.arrivals|), p)
    requires Judge(buf) == NeedMore && InTime(input, p, |input.arrivals| - p.next + 1)
    ensures Ends(h, errs, input, out, cut, OnTime)
  {
    assert out + "" == out && buf + Pending(input.arrivals, |input.arrivals|) == buf;
    var sent;
    cut, sent := EndIncomplete(h, errs.headersTooLarge, input, out, reqs, buf, buf, p);
    StillSent(h, errs, input, sent, out, p, cut, OnTime);
  }

  lemma TrackLength(h: Handler, tooLarge: string, input: Input, out: string, reqs: nat, left: string, p: Position)
    requires OnTrack(h, tooLarge, input, out, reqs, left, p)
    ensures |input.Whole()| == p.done + |left|
  {
  }

  /** A head that was answered and left the connection open: the next turn starts where the loop stands. */
  lemma TurnAnswered(h: Handler, tooLarge: string, input: Input, out: string, reqs: nat, buf: string, p: Position, next: nat, end: nat, q: Position)
    requires p.next <= next <= |input.arrivals| && reqs < MAX_REQS_PER_CONN && InTime(input, p, next - p.next)
    requires OnTrack(h, tooLarge, input, out, reqs, buf + Pending(input.arrivals, next), p)
    requires Judge(buf) == Head(end) && h(buf[..end], reqs + 1 < MAX_REQS_PER_CONN).keepAlive
    requires next > p.next ==> |buf| < end + |input.arrivals[next - 1]|
    requires q == Position(p.tick + 2 + AwaitTicks(Buffered(input, p), next - p.next), next, p.done + end)
    ensures OnTrack(h, tooLarge, input, out + h(buf[..end], reqs + 1 < MAX_REQS_PER_CONN).wire, reqs + 1, buf[end..] + Pending(input.arrivals, next), q)
  {
    TrackLength(h, tooLarge, input, out, reqs, buf + Pending(input.arrivals, next), p);
    TurnTicks(input, p, buf, Pending(input.arrivals, next), next, end);
    TurnOpen(h, tooLarge, input, out, reqs, buf, Pending(input.arrivals, next), p, end);
  }

  /** A turn that sends the last answer. */
  lemma TurnClosed(h: Handler, errs: LoopErrors, input: Input, out: string, reqs: nat, buf: string, p: Position, next: nat, answer: Answer)
    requires p.next <= next <= |input.arrivals| && reqs < MAX_REQS_PER_CONN && InTime(input, p, next - p.next)
    requires OnTrack(h, errs.headersTooLarge, input, out, reqs, buf + Pending(input.arrivals, next), p)
    requires Last(h, errs.headersTooLarge, buf, reqs) == [answer] && !answer.reply.keepAlive
    requires next > p.next ==> |buf| < |answer.head| + |input.arrivals[next - 1]|
    ensures Ends(h, errs, input, out + answer.reply.wire, |input.Whole()|, OnTime)
  {
    var rest := Pending(input.arrivals, next);
    TrackLength(h, errs.headersTooLarge, input, out, reqs, buf + rest, p);
    TurnTicks(input, p, buf, rest, next, |answer.head|);
    LastStable(h, errs.headersTooLarge, buf, rest, reqs);
    EndAnswered(h, errs, input, out, reqs, buf + rest, p, answer);
  }

  /** A head that a closing response answers. */
  lemma TurnRefused(h: Handler, errs: LoopErrors, input: Input, out: string, reqs: nat, buf: string, p: Position, next: nat, end: nat)
    requires p.next <= next <= |input.arrivals| && reqs < MAX_REQS_PER_CONN && InTime(input, p, next - p.next)
    requires OnTrack(h, errs.headersTooLarge, input, out, reqs, buf + Pending(input.arrivals, next), p)
    requires Judge(buf) == Head(end) && !h(buf[..end], reqs + 1 < MAX_REQS_PER_CONN).keepAlive
    requires next > p.next ==> |buf| < end + |input.arrivals[next - 1]|
    ensures Ends(h, errs, input, out + h(buf[..end], reqs + 1 < MAX_REQS_PER_CONN).wire, |input.Whole()|, OnTime)
  {
    TurnClosed(h, errs, input, out, reqs, buf, p, next, Answer(buf[..end], h(buf[..end], reqs + 1 < MAX_REQS_PER_CONN)));
  }

  /** A head that is too large. */
  lemma TurnOversized(h: Handler, errs: LoopErrors, input: Input, out: string, reqs: nat, buf: string, p: Position, next: nat)
    requires p.next <= next <= |input.arrivals| && reqs < MAX_REQS_PER_CONN && InTime(input, p, next - p.next)
    requires OnTrack(h, errs.headersTooLarge, input, out, reqs, buf + Pending(input.arrivals, next), p)
    requires Judge(buf) == TooLarge
    requires next > p.next ==> |buf| < MAX_HEADER_BYTES + |input.arrivals[next - 1]|
    ensures Ends(h, errs, input, out + errs.headersTooLarge, |input.Whole()|, OnTime)
  {
    TurnClosed(h, errs, input, out, reqs, buf, p, next, Answer(buf[..MAX_HEADER_BYTES], Reply(errs.headersTooLarge, false)));
  }

  lemma LastStable(h: Handler, tooLarge: string, buf: string, rest: string, reqs: nat)
    requires Judge(buf) != NeedMore
    ensures Last(h, tooLarge, buf + rest, reqs) == Last(h, tooLarge, buf, reqs)
  {
    JudgeStable(buf, rest);
    assert |buf| >= MAX_HEADER_BYTES ==> (buf + rest)[..MAX_HEADER_BYTES] == buf[..MAX_HEADER_BYTES];
    assert Judge(buf).Head? ==> (buf + rest)[..Judge(buf).end] == buf[..Judge(buf).end];
  }

  /** What goes out for a turn with this outcome. */
  function TurnWire(h: Handler, errs: LoopErrors, outcome: Awaited, buf: string, reqs: nat): string {
    match outcome
    case Complete(end) => if end <= |buf| then h(buf[..end], reqs + 1 < MAX_REQS_PER_CONN).wire else ""
    case Oversized => errs.headersTooLarge
    case Expired => errs.requestTimeout
    case Ended => ""
  }

  /** A turn after which the connection is closed. */
  lemma TurnEnds(h: Handler, errs: LoopErrors, input: Input, out: string, reqs: nat, buf: string, p: Position, next: nat, outcome: Awaited, tick: nat, final: string)
    returns (cut: nat, late: Lateness)
    requires p.next <= next <= |input.arrivals| && reqs < MAX_REQS_PER_CONN
    requires OnTrack(h, errs.headersTooLarge, input, out, reqs, buf + Pending(input.arrivals, next), p)
    requires Decided(input.clock, input.deadline, Buffered(input, p), p.tick + 2, next - p.next, buf, outcome, tick)
    requires next > p.next ==> |buf| < Due(Judge(buf)) + |input.arrivals[next - 1]|
    requires InTime(input, p, next - p.next + if outcome == Ended then 1 else 0) && (outcome == Ended ==> next == |input.arrivals|)
    requires outcome.Complete? ==> !h(buf[..outcome.end], reqs + 1 < MAX_REQS_PER_CONN).keepAlive
    requires final == out + TurnWire(h, errs, outcome, buf, reqs)
    ensures Ends(h, errs, input, final, cut, late)
  {
    cut, late := |input.Whole()|, OnTime;
    match outcome {
      case Complete(end) => TurnRefused(h, errs, input, out, reqs, buf, p, next, end);
      case Oversized => TurnOversized(h, errs, input, out, reqs, buf, p, next);
      case Ended =>
        cut := TurnEnded(h, errs, input, out, reqs, buf, p);
        assert out + "" == out;
      case Expired =>
        late := AwaitingHead(HeadStart(Buffered(input, p), p.tick + 2), tick - 1);
        cut := TurnExpired(h, errs, input, out, reqs, buf, p, next, late);
    }
  }

  /** All requests of the quota are answered. */
  lemma EndQuota(h: Handler, errs: LoopErrors, input: Input, out: string, left: string, p: Position)
    requires OnTrack(h, errs.headersTooLarge, input, out, MAX_REQS_PER_CONN, left, p)
    ensures Ends(h, errs, input, out, |input.Whole()|, OnTime)
  {
    var done: string, sent: seq<Answer> :| Tracks(h, errs.headersTooLarge, input, out, MAX_REQS_PER_CONN, left, p, done, sent);
    assert Continues(h, errs.headersTooLarge, done, sent, MAX_REQS_PER_CONN, left);
    assert input.Whole()[..|input.Whole()|] == input.Whole() && sent + [] == sent && out + "" == out;
    assert EndsWith(h, errs, input, sent, out, |input.Whole()|, OnTime);
  }

  /** Await the head of the turn that starts at `p`, after the two readings that every turn begins with. */
  method AwaitTurn(initial: string, arrivals: seq<string>, first: nat, clock: nat -> nat, firstTick: nat, connDeadline: nat, ghost input: Input, ghost p: Position)
    returns (outcome: Awaited, buf: string, next: nat, tick: nat)
    requires first <= |arrivals| && ReadSizes(arrivals)
    requires input.arrivals == arrivals && input.clock == clock && input.deadline == connDeadline && p.tick == firstTick && p.next == first
    requires (Buffered(input, p) <==> initial != "") && clock(firstTick) < connDeadline
    ensures first <= next <= |arrivals|
    ensures buf + Pending(arrivals, next) == initial + Pending(arrivals, first)
    ensures Decided(clock, connDeadline, Buffered(input, p), p.tick + 2, next - p.next, buf, outcome, tick)
    ensures next > first ==> |buf| < Due(Judge(buf)) + |arrivals[next - 1]|
    ensures outcome == Ended ==> next == |arrivals|
    ensures InTime(input, p, next - p.next + if outcome == Ended then 1 else 0)
    ensures |buf| <= Max(|initial|, MAX_HEADER_BYTES - 1 + READ_CHUNK)
  {
    // the second reading arms the deadline that bounds the reads of this head
    ghost var searched;
    outcome, buf, next, tick, searched := AwaitHead(initial, arrivals, first, clock, firstTick + 2, connDeadline);
  }

  /** One turn of the loop, for a connection that has sent `out` of its answers and stands at `p`. */
  method ServeRequest(h: Handler, errs: LoopErrors, initial: string, arrivals: seq<string>, first: nat,
                      clock: nat -> nat, firstTick: nat, connDeadline: nat, reqs: nat, ghost input: Input, ghost out: string, ghost p: Position)
    returns (wire: string, open: bool, buf: string, next: nat, tick: nat, ghost cut: nat, ghost late: Lateness, ghost q: Position)
    requires first <= |arrivals| && ReadSizes(arrivals) && reqs < MAX_REQS_PER_CONN
    requires input.arrivals == arrivals && input.clock == clock && input.deadline == connDeadline && p.tick == firstTick && p.next == first
    requires OnTrack(h, errs.headersTooLarge, input, out, reqs, initial + Pending(arrivals, first), p)
    ensures first <= next <= |arrivals|
    ensures open ==> late == OnTime && q.tick == tick && q.next == next
    ensures open ==> OnTrack(h, errs.headersTooLarge, input, out + wire, reqs + 1, buf + Pending(arrivals, next), q)
    ensures !open ==> Ends(h, errs, input, out + wire, cut, late)
    ensures |buf| <= Max(|initial|, MAX_HEADER_BYTES - 1 + READ_CHUNK)
  {
    wire, open, buf, next, tick, late, q := "", false, initial, first, firstTick, OnTime, p;
    OnTrackBuffer(h, errs.headersTooLarge, input, out, reqs, initial, p);
    if clock(tick) >= connDeadline {
      tick, late := tick + 1, BetweenRequests(firstTick);
      cut := TurnTooLate(h, errs, input, out, reqs, initial + Pending(arrivals, first), p);
      assert out + "" == out;
      return;
    }
    var outcome;
    outcome, buf, next, tick := AwaitTurn(initial, arrivals, first, clock, tick, connDeadline, input, p);
    if outcome.Complete? {
      var reply := h(buf[..outcome.end], reqs + 1 < MAX_REQS_PER_CONN);
      wire, open := reply.wire, reply.keepAlive;
    } else if outcome == Oversized {
      wire := errs.headersTooLarge;
    } else if outcome == Expired {
      wire := errs.requestTimeout;
    }
    if open {
      q := Position(tick, next, p.done + outcome.end);
      TurnAnswered(h, errs.headersTooLarge, input, out, reqs, buf, p, next, outcome.end, q);
      buf, cut := buf[outcome.end..], 0;
    } else {
      cut, late := TurnEnds(h, errs, input, out, reqs, buf, p, next, outcome, tick, out + wire);
    }
  }

  /**
   Drive one connection. The output is that of the simple form on the input up to `cut`, followed
   by a request-timeout response if a limit was over while a head was awaited; and unless a limit was
   over, it is that of the simple form on the whole input. So the output does not depend on how the
   network chunked the input, nor on which part of it was already buffered (`initial`). Which reading
   ended the connection, if any, is decided by the input and the clock: the first one that found a
   limit over.
   */
  method ServeOver(h: Handler, errs: LoopErrors, initial: string, arrivals: seq<string>, clock: nat -> nat, connDeadline: nat)
    returns (out: string, ghost cut: nat, ghost late: Lateness, ghost peak: nat)
    requires ReadSizes(arrivals)
    ensures Truncates(h, errs, initial + Concat(arrivals), out, cut, late.AwaitingHead?)
    ensures late == OnTime ==> out == Wires(Answers(h, errs.headersTooLarge, initial + Concat(arrivals), 0))
    ensures KeepsTime(h, errs.headersTooLarge, Input(initial, arrivals, clock, connDeadline), cut, late)
    ensures peak <= Max(|initial|, MAX_HEADER_BYTES - 1 + READ_CHUNK)
  {
    var buf, next, tick := initial, 0, 0;
    out, late, peak := "", OnTime, |initial|;
    ghost var input, p := Input(initial, arrivals, clock, connDeadline), Position(0, 0, 0);
    assert arrivals[0..] == arrivals;
    OnTrackStart(h, errs.headersTooLarge, input);
    for reqs := 0 to MAX_REQS_PER_CONN
      invariant next <= |arrivals| && late == OnTime && p.tick == tick && p.next == next
      invariant OnTrack(h, errs.headersTooLarge, input, out, reqs, buf + Pending(arrivals, next), p)
      invariant |buf| <= peak <= Max(|initial|, MAX_HEADER_BYTES - 1 + READ_CHUNK)
    {
      var wire, open;
      wire, open, buf, next, tick, cut, late, p := ServeRequest(h, errs, buf, arrivals, next, clock, tick, connDeadline, reqs, input, out, p);
      peak := Max(peak, |buf|);
      out := out + wire;
      if !open {
        EndsMeans(h, errs, input, out, cut, late);
        WholeOutput(h, errs, input.Whole(), out, cut, late.AwaitingHead?);
        return;
      }
    }
    cut := |input.Whole()|;
    EndQuota(h, errs, input, out, buf + Pending(arrivals, next), p);
    EndsMeans(h, errs, input, out, cut, OnTime);
    WholeOutput(h, errs, input.Whole(), out, cut, false);
  }

  /** Two deliveries of the same bytes that no deadline ended get the same output, byte for byte. */
  method ServeTwice(h: Handler, errs: LoopErrors, input1: Input, input2: Input)
    returns (out1: string, out2: string, ghost cut1: nat, ghost cut2: nat, ghost late1: Lateness, ghost late2: Lateness)
    requires ReadSizes(input1.arrivals) && ReadSizes(input2.arrivals) && input1.Whole() == input2.Whole()
    ensures late1 == OnTime && late2 == OnTime ==> out1 == out2
    ensures KeepsTime(h, errs.headersTooLarge, input1, cut1, late1) && KeepsTime(h, errs.headersTooLarge, input2, cut2, late2)
  {
    ghost var peak1, peak2;
    out1, cut1, late1, peak1 := ServeOver(h, errs, input1.initial, input1.arrivals, input1.clock, input1.deadline);
    out2, cut2, late2, peak2 := ServeOver(h, errs, input2.initial, input2.arrivals, input2.clock, input2.deadline);
  }

  // ---------------------------------------------------------------- what the simple form promises

  /** The answer at index `i` answers one complete head, as request number `reqs + i`. */
  ghost predicate AnswersHead(h: Handler, answer: Answer, number: nat) {
    Judge(answer.head) == Head(|answer.head|) && answer.reply == h(answer.head, number + 1 < MAX_REQS_PER_CONN)
  }

  /** The loop's own answer to input that holds no head within the limit. */
  ghost predicate AnswersOversized(tooLarge: string, answer: Answer) {
    Judge(answer.head) == TooLarge && answer.reply == Reply(tooLarge, false)
  }

  /** The input that is left after `answers`, and the number of the request it starts. */
  function Left(s: string, answers: seq<Answer>): string
    requires |Heads(answers)| <= |s|
  {
    s[|Heads(answers)|..]
  }

  ghost predicate StillOpen(answers: seq<Answer>) {
    answers != [] ==> answers[|answers| - 1].reply.keepAlive
  }

  /** `answers` account for a prefix of the input, and leave no complete head if they leave the connection open. */
  ghost predicate Covers(answers: seq<Answer>, s: string, quota: nat) {
    && |answers| <= quota
    && Heads(answers) <= s
    && (StillOpen(answers) && |answers| < quota ==> Judge(Left(s, answers)) == NeedMore)
  }

  lemma CoversCons(answer: Answer, rest: seq<Answer>, s: string, end: nat, quota: nat)
    requires end <= |s| && answer.head == s[..end] && answer.reply.keepAlive && quota > 0
    requires Covers(rest, s[end..], quota - 1)
    ensures Covers([answer] + rest, s, quota)
  {
    var answers := [answer] + rest;
    assert answers[1..] == rest;
    assert s == s[..end] + s[end..];
    assert Heads(answers) == s[..end] + Heads(rest);
    assert s[|Heads(answers)|..] == s[end..][|Heads(rest)|..];
    assert rest != [] ==> answers[|answers| - 1] == rest[|rest| - 1];
  }

  lemma CoversOne(answer: Answer, s: string, quota: nat)
    requires answer.head <= s && quota > 0 && !answer.reply.keepAlive
    ensures Covers([answer], s, quota)
  {
    assert Heads([answer]) == answer.head + Heads([answer][1..]);
    assert [answer][1..] == [];
  }

  /**
   Each head gets exactly one answer, in the order of the input: the answered heads make up a
   prefix of the input, and if the connection is still open no complete head is left unanswered.
   */
  lemma {:induction false} AnswersCoverInput(h: Handler, tooLarge: string, s: string, reqs: nat)
    requires reqs <= MAX_REQS_PER_CONN
    ensures Covers(Answers(h, tooLarge, s, reqs), s, MAX_REQS_PER_CONN - reqs)
    decreases |s|
  {
    if reqs == MAX_REQS_PER_CONN {
      return;
    }
    match Judge(s) {
      case NeedMore =>
        assert s[0..] == s;
      case TooLarge =>
        CoversOne(Answer(s[..MAX_HEADER_BYTES], Reply(tooLarge, false)), s, MAX_REQS_PER_CONN - reqs);
      case Head(end) =>
        var answer := Answer(s[..end], h(s[..end], reqs + 1 < MAX_REQS_PER_CONN));
        if answer.reply.keepAlive {
          AnswersCoverInput(h, tooLarge, s[end..], reqs + 1);
          CoversCons(answer, Answers(h, tooLarge, s[end..], reqs + 1), s, end, MAX_REQS_PER_CONN - reqs);
        } else {
          CoversOne(answer, s, MAX_REQS_PER_CONN - reqs);
          assert [answer] + [] == [answer];
        }
    }
  }

  /** Every answer is the handler's for its own head, and only the last one may close. */
  lemma {:induction false} EachAnswer(h: Handler, tooLarge: string, s: string, reqs: nat, i: nat)
    requires reqs <= MAX_REQS_PER_CONN && i < |Answers(h, tooLarge, s, reqs)|
    ensures var answers := Answers(h, tooLarge, s, reqs);
            && (AnswersHead(h, answers[i], reqs + i) || AnswersOversized(tooLarge, answers[i]))
            && (i < |answers| - 1 ==> answers[i].reply.keepAlive)
    decreases i
  {
    if Judge(s).Head? {
      var end := Judge(s).end;
      JudgePrefix(s, end);
      if i > 0 {
        var rest := Answers(h, tooLarge, s[end..], reqs + 1);
        EachAnswer(h, tooLarge, s[end..], reqs + 1, i - 1);
        AfterFirst(Answers(h, tooLarge, s, reqs)[0], rest, i);
      }
    } else if Judge(s).TooLarge? {
      JudgeLimit(s);
    }
  }

  lemma AfterFirst(first: Answer, rest: seq<Answer>, i: nat)
    requires 0 < i <= |rest|
    ensures ([first] + rest)[i] == rest[i - 1] && |[first] + rest| - 1 == |rest|
  {
  }

  // ---------------------------------------------------------------- the input and the clock decide

  /** An open connection goes on from its answers when more input arrives. */
  lemma {:induction false} OpenIsServed(h: Handler, tooLarge: string, done: string, sent: seq<Answer>, reqs: nat, s: string, answers: seq<Answer>,
                                        allDone: string, allSent: seq<Answer>, allReqs: nat)
    requires Served(h, tooLarge, done, sent, reqs) && answers == Answers(h, tooLarge, s, reqs) && StillOpen(answers)
    requires allDone == done + Heads(answers) && allSent == sent + answers && allReqs == reqs + |answers|
    ensures Served(h, tooLarge, allDone, allSent, allReqs)
    decreases |answers|
  {
    if answers == [] {
      assert allDone == done && allSent == sent;
    } else {
      var end := OpenHead(h, tooLarge, s, reqs, answers);
      var head := answers[0].head;
      ServeOne(h, tooLarge, done, sent, reqs, head);
      AllServed(done, sent, answers, allDone, allSent);
      OpenIsServed(h, tooLarge, done + head, sent + [answers[0]], reqs + 1, s[end..], answers[1..], allDone, allSent, allReqs);
    }
  }

  lemma AllServed(done: string, sent: seq<Answer>, answers: seq<Answer>, allDone: string, allSent: seq<Answer>)
    requires answers != [] && allDone == done + Heads(answers) && allSent == sent + answers
    ensures allDone == done + answers[0].head + Heads(answers[1..]) && allSent == sent + [answers[0]] + answers[1..]
  {
    Assoc(done, answers[0].head, Heads(answers[1..]));
  }

  /** An open connection that answered anything answered a head first. */
  lemma OpenHead(h: Handler, tooLarge: string, s: string, reqs: nat, answers: seq<Answer>) returns (end: nat)
    requires answers == Answers(h, tooLarge, s, reqs) && answers != [] && StillOpen(answers)
    ensures reqs < MAX_REQS_PER_CONN && end <= |s| && AnswersHead(h, answers[0], reqs) && answers[0].reply.keepAlive
    ensures answers[1..] == Answers(h, tooLarge, s[end..], reqs + 1) && StillOpen(answers[1..])
  {
    end := Judge(s).end;
    JudgePrefix(s, end);
  }

  lemma {:induction false} AfterTurnsDone(input: Input, answers: seq<Answer>)
    ensures AfterTurns(input, answers).done == |Heads(answers)|
  {
    if answers != [] {
      var before, last := answers[..|answers| - 1], answers[|answers| - 1];
      AfterTurnsDone(input, before);
      assert answers == before + [last];
      HeadsSnoc(before, last);
    }
  }

  lemma {:induction false} HeadsSnoc(sent: seq<Answer>, last: Answer)
    ensures Heads(sent + [last]) == Heads(sent) + last.head
  {
    if sent == [] {
      assert [last][1..] == [];
      assert Heads([last]) == last.head + "";
    } else {
      assert (sent + [last])[1..] == sent[1..] + [last];
      HeadsSnoc(sent[1..], last);
    }
  }

  /** Each turn of a connection that kept time was in time. */
  lemma {:induction false} TurnsInTimeAt(input: Input, answers: seq<Answer>, i: nat)
    requires TurnsInTime(input, answers) && i < |answers|
    ensures var p := AfterTurns(input, answers[..i]); InTime(input, p, NextPosition(input, p, |answers[i].head|).next - p.next)
    decreases |answers|
  {
    var before := answers[..|answers| - 1];
    if i < |before| {
      TurnsInTimeAt(input, before, i);
      assert before[..i] == answers[..i];
    }
  }

  lemma {:induction false} ReadsUntilPast(input: Input, first: nat, next: nat, end: nat)
    requires first <= next < |input.arrivals| && input.Received(next) < end
    ensures ReadsUntil(input, first, end) > next
    decreases next - first
  {
    ReceivedMonotone(input, first, next);
    if first < next {
      ReadsUntilPast(input, first + 1, next, end);
    }
  }

  /** A check cannot both pass and fail, so a turn that no head came in ends in one way only. */
  lemma LastTurnOnce(input: Input, p: Position, cut1: nat, late1: Lateness, cut2: nat, late2: Lateness)
    requires p.next <= |input.arrivals| && LastTurn(input, p, cut1, late1) && LastTurn(input, p, cut2, late2)
    ensures late1 == late2 && (late1 != OnTime ==> cut1 == cut2)
  {
    if late1.AwaitingHead? {
      var next1: nat :| ExpiresIn(input, p, next1, cut1, late1.start, late1.at);
      FailedAt(input, p, next1, cut1, late1, cut2, late2);
    } else if late2.AwaitingHead? {
      var next2: nat :| ExpiresIn(input, p, next2, cut2, late2.start, late2.at);
      FailedAt(input, p, next2, cut2, late2, cut1, late1);
    }
  }

  lemma FailedAt(input: Input, p: Position, next1: nat, cut1: nat, late1: Lateness, cut2: nat, late2: Lateness)
    requires p.next <= |input.arrivals| && late1.AwaitingHead? && ExpiresIn(input, p, next1, cut1, late1.start, late1.at)
    requires LastTurn(input, p, cut2, late2)
    ensures late1 == late2 && cut1 == cut2
  {
    FailsOnce(input, p, next1, late1.start, late1.at, |input.arrivals| - p.next + 1);
    if late2.AwaitingHead? {
      var next2: nat :| ExpiresIn(input, p, next2, cut2, late2.start, late2.at);
      FailsOnce(input, p, next1, late1.start, late1.at, next2 - p.next);
      FailsOnce(input, p, next2, late2.start, late2.at, next1 - p.next);
    }
  }

  lemma FailsOnce(input: Input, p: Position, next: nat, start: nat, at: nat, checks: nat)
    requires p.next <= next <= |input.arrivals|
    requires ExpiresAt(input.clock, input.deadline, Buffered(input, p), p.tick + 2, next - p.next, start, at)
    ensures InTime(input, p, checks) ==> checks <= next - p.next
  {
    assert !Passes(input.clock, input.deadline, Buffered(input, p), p.tick + 2, next - p.next);
  }

  /** The head of the next answer was not complete when the input up to `cut` had arrived. */
  lemma HeadIsLonger(h: Handler, tooLarge: string, s: string, t: string, reqs: nat)
    requires reqs < MAX_REQS_PER_CONN && Judge(s) == NeedMore && Answers(h, tooLarge, s + t, reqs) != []
    ensures |s| < |Answers(h, tooLarge, s + t, reqs)[0].head| <= |s + t|
  {
    var head := Answers(h, tooLarge, s + t, reqs)[0].head;
    EachAnswer(h, tooLarge, s + t, reqs, 0);
    if |head| <= |s| {
      assert s == head + s[|head|..];
      JudgeStable(head, s[|head|..]);
    }
  }

  /** A connection that ended while a turn was not in time did not go on to answer that turn's head. */
  lemma NoAnswerAfter(input: Input, p: Position, cut: nat, late: Lateness, length: nat)
    requires p.next <= |input.arrivals| && LastTurn(input, p, cut, late) && late != OnTime
    requires cut < p.done + length <= |input.Whole()|
    ensures !InTime(input, p, NextPosition(input, p, length).next - p.next)
  {
    if late.AwaitingHead? {
      var next: nat :| ExpiresIn(input, p, next, cut, late.start, late.at);
      assert input.arrivals[..|input.arrivals|] == input.arrivals;
      ReadsUntilPast(input, p.next, next, p.done + length);
      FailsOnce(input, p, next, late.start, late.at, NextPosition(input, p, length).next - p.next);
    }
  }

  lemma EndsFirst(h: Handler, tooLarge: string, input: Input, cut1: nat, late1: Lateness, cut2: nat, late2: Lateness, s: string, t: string,
                  answers: seq<Answer>, more: seq<Answer>, p: Position)
    requires cut1 <= cut2 <= |input.Whole()| && s == input.Whole()[..cut1] && s + t == input.Whole()[..cut2] && late1 != OnTime
    requires answers == Answers(h, tooLarge, s, 0) && p == AfterTurns(input, answers)
    requires Timed(input, answers, cut1, late1) && |Heads(answers)| <= cut1 && answers + more == Answers(h, tooLarge, s + t, 0)
    requires more == Answers(h, tooLarge, Left(s, answers) + t, |answers|)
    requires Timed(input, answers + more, cut2, late2)
    ensures cut1 == cut2 && late1 == late2
  {
    AfterTurnsDone(input, answers);
    if more == [] {
      assert answers + more == answers;
      LastTurnOnce(input, p, cut1, late1, cut2, late2);
    } else {
      AnswersCoverInput(h, tooLarge, s, 0);
      HeadIsLonger(h, tooLarge, Left(s, answers), t, |answers|);
      TurnsInTimeAt(input, answers + more, |answers|);
      assert (answers + more)[..|answers|] == answers && (answers + more)[|answers|] == more[0];
      NoAnswerAfter(input, p, cut1, late1, |more[0].head|);
    }
  }

  lemma OpenFromStart(h: Handler, tooLarge: string, s: string, answers: seq<Answer>)
    requires answers == Answers(h, tooLarge, s, 0) && StillOpen(answers)
    ensures Served(h, tooLarge, Heads(answers), answers, |answers|)
  {
    ServedNothing(h, tooLarge);
    OpenIsServed(h, tooLarge, "", [], 0, s, answers, Heads(answers), answers, |answers|);
  }

  lemma AnswersExtend(h: Handler, tooLarge: string, s: string, t: string, answers: seq<Answer>) returns (more: seq<Answer>)
    requires answers == Answers(h, tooLarge, s, 0) && StillOpen(answers)
    ensures |Heads(answers)| <= |s| && more == Answers(h, tooLarge, Left(s, answers) + t, |answers|)
    ensures Answers(h, tooLarge, s + t, 0) == answers + more
  {
    AnswersCoverInput(h, tooLarge, s, 0);
    OpenFromStart(h, tooLarge, s, answers);
    LeftJoins(s, t, answers);
    more := ServedMore(h, tooLarge, Heads(answers), answers, |answers|, Left(s, answers) + t, s + t);
  }

  lemma LeftJoins(s: string, t: string, answers: seq<Answer>)
    requires Heads(answers) <= s
    ensures Heads(answers) + (Left(s, answers) + t) == s + t
  {
    assert Heads(answers) + Left(s, answers) == s;
    Assoc(Heads(answers), Left(s, answers), t);
  }

  lemma ServedMore(h: Handler, tooLarge: string, done: string, sent: seq<Answer>, reqs: nat, rest: string, s: string) returns (more: seq<Answer>)
    requires Served(h, tooLarge, done, sent, reqs) && done + rest == s
    ensures more == Answers(h, tooLarge, rest, reqs) && Answers(h, tooLarge, s, 0) == sent + more
  {
    assert Continues(h, tooLarge, done, sent, reqs, rest);
    more := Answers(h, tooLarge, rest, reqs);
  }

  lemma EarlierEnds(h: Handler, tooLarge: string, input: Input, cut1: nat, late1: Lateness, cut2: nat, late2: Lateness)
    requires KeepsTime(h, tooLarge, input, cut1, late1) && KeepsTime(h, tooLarge, input, cut2, late2)
    requires cut1 <= cut2 && late1 != OnTime
    ensures cut1 == cut2 && late1 == late2
  {
    var s, t := input.Whole()[..cut1], input.Whole()[cut1..cut2];
    assert s + t == input.Whole()[..cut2];
    var answers := Answers(h, tooLarge, s, 0);
    var more := AnswersExtend(h, tooLarge, s, t, answers);
    EndsFirst(h, tooLarge, input, cut1, late1, cut2, late2, s, t, answers, more, AfterTurns(input, answers));
  }

  /** The input and the clock decide how a connection ends: where, and by which reading, if any. */
  lemma OneEnding(h: Handler, tooLarge: string, input: Input, cut1: nat, late1: Lateness, cut2: nat, late2: Lateness)
    requires KeepsTime(h, tooLarge, input, cut1, late1) && KeepsTime(h, tooLarge, input, cut2, late2)
    ensures cut1 == cut2 && late1 == late2
  {
    if late1 != OnTime && cut1 <= cut2 {
      EarlierEnds(h, tooLarge, input, cut1, late1, cut2, late2);
    } else if late2 != OnTime && cut2 <= cut1 {
      EarlierEnds(h, tooLarge, input, cut2, late2, cut1, late1);
    }
  }

  lemma FirstDecides(h: Handler, k: Handler, tooLarge: string, head: string, rest: string, reqs: nat, r: Reply)
    requires reqs < MAX_REQS_PER_CONN && Judge(head) == Head(|head|)
    requires r == h(head, reqs + 1 < MAX_REQS_PER_CONN) == k(head, reqs + 1 < MAX_REQS_PER_CONN)
    requires r.keepAlive ==> Answers(h, tooLarge, rest, reqs + 1) == Answers(k, tooLarge, rest, reqs + 1)
    ensures Answers(h, tooLarge, head + rest, reqs) == Answers(k, tooLarge, head + rest, reqs)
  {
    AnswerHead(h, tooLarge, head, rest, reqs);
    AnswerHead(k, tooLarge, head, rest, reqs);
  }

  /** The answers depend on what the handler does, not on how. */
  lemma {:induction false} SameHandler(h: Handler, k: Handler, tooLarge: string, s: string, reqs: nat)
    requires forall head, wantKeepAlive :: h(head, wantKeepAlive) == k(head, wantKeepAlive)
    ensures Answers(h, tooLarge, s, reqs) == Answers(k, tooLarge, s, reqs)
    decreases |s|
  {
    if reqs < MAX_REQS_PER_CONN && Judge(s).Head? {
      var end := Judge(s).end;
      JudgePrefix(s, end);
      SameHandler(h, k, tooLarge, s[end..], reqs + 1);
      FirstDecides(h, k, tooLarge, s[..end], s[end..], reqs, h(s[..end], reqs + 1 < MAX_REQS_PER_CONN));
      assert s == s[..end] + s[end..];
    }
  }

  /** The handler closes when it is told that this request is the last. */
  ghost predicate Honours(h: Handler) {
    forall head :: !h(head, false).keepAlive
  }

  /** A connection that has sent its full quota of responses has closed: the last one said so. */
  lemma QuotaCloses(h: Handler, tooLarge: string, s: string)
    requires Honours(h) && |Answers(h, tooLarge, s, 0)| == MAX_REQS_PER_CONN
    ensures !Answers(h, tooLarge, s, 0)[MAX_REQS_PER_CONN - 1].reply.keepAlive
  {
    EachAnswer(h, tooLarge, s, 0, MAX_REQS_PER_CONN - 1);
  }
}
