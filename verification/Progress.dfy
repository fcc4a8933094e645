/**
 The socket wrapper that stops connections which make no progress (`DeadlineIo`, `Phase`), and
 the time bound that its per-window quota gives.
 */
module Progress {
  import opened Bytes

  const PROGRESS_TIMEOUT_SECS: real := 30.0
  const MIN_PROGRESS_BYTES: nat := 1024

  /** The progress window: when it began, and the bytes written within it. */
  datatype Pace = Pace(window: real, moved: nat)

  predicate Rolls(p: Pace, at: real) {
    at - p.window >= PROGRESS_TIMEOUT_SECS
  }

  /** `None` is below the minimum rate. `at` and `rolledAt` are the two clock readings of one check. */
  function CheckRate(p: Pace, at: real, rolledAt: real): Option<Pace> {
    if !Rolls(p, at) then Some(p)
    else if p.moved < MIN_PROGRESS_BYTES then None
    else Some(Pace(rolledAt, 0))
  }

  /** The byte counter saturates like a `usize`. */
  function Moved(p: Pace, n: nat): Pace {
    p.(moved := if p.moved + n > USIZE_MAX then USIZE_MAX else p.moved + n)
  }

  datatype IoError = TransferDeadline | HeadDeadline | BelowRate | SocketError

  /** What the socket below did: it moved some bytes, or failed. */
  datatype Socket = Moves(n: nat) | Fails

  datatype Outcome = Done(n: nat) | Failed(e: IoError)

  class DeadlineIo {
    var pace: Pace
    var phase: Option<real>
    const deadline: Option<real>

    constructor (now: real, maxTransfer: Option<real>)
      ensures pace == Pace(now, 0) && phase == None
      ensures deadline == match maxTransfer case None => None case Some(d) => Some(now + d)
    {
      pace, phase := Pace(now, 0), None;
      deadline := match maxTransfer case None => None case Some(d) => Some(now + d);
    }

    /** The deadlines that no traffic resets. */
    function Check(now: real): Option<IoError>
      reads this
    {
      if deadline.Some? && now >= deadline.value then Some(TransferDeadline)
      else if phase.Some? && now >= phase.value then Some(HeadDeadline)
      else None
    }

    /** A read of at least one byte starts a clean window; an empty or failed one changes nothing. */
    method Read(now: real, socket: Socket, after: real) returns (r: Outcome)
      modifies this`pace
      ensures Check(now).Some? ==> r == Failed(Check(now).value) && pace == old(pace)
      ensures Check(now).None? ==> match socket
                                   case Fails => r == Failed(SocketError) && pace == old(pace)
                                   case Moves(n) => r == Done(n) && pace == if n > 0 then Pace(after, 0) else old(pace)
    {
      var refused := Check(now);
      if refused.Some? {
        return Failed(refused.value);
      }
      match socket {
        case Fails =>
          return Failed(SocketError);
        case Moves(n) =>
          if n > 0 {
            pace := Pace(after, 0);
          }
          return Done(n);
      }
    }

    /** A write is checked against the rate on the way in, and counted on the way out. */
    method Write(now: real, at: real, rolledAt: real, socket: Socket) returns (r: Outcome)
      modifies this`pace
      ensures Check(now).Some? ==> r == Failed(Check(now).value) && pace == old(pace)
      ensures Check(now).None? ==>
                match CheckRate(old(pace), at, rolledAt)
                case None => r == Failed(BelowRate) && pace == old(pace)
                case Some(checked) =>
                  match socket
                  case Fails => r == Failed(SocketError) && pace == checked
                  case Moves(n) => r == Done(n) && pace == Moved(checked, n)
    {
      var refused := Check(now);
      if refused.Some? {
        return Failed(refused.value);
      }
      if at - pace.window >= PROGRESS_TIMEOUT_SECS {
        if pace.moved < MIN_PROGRESS_BYTES {
          return Failed(BelowRate);
        }
        pace := Pace(rolledAt, 0);
      }
      match socket {
        case Fails =>
          return Failed(SocketError);
        case Moves(n) =>
          pace := pace.(moved := if pace.moved + n > USIZE_MAX then USIZE_MAX else pace.moved + n);
          return Done(n);
      }
    }
  }

  // ---------------------------------------------------------------- the time bound

  /** One write or flush between two reads: its clock readings, its end, and the bytes it moved. */
  datatype Call = Call(now: real, at: real, rolledAt: real, end: real, written: nat)

  /** The last clock reading of a call's rate check. */
  function Moment(p: Pace, c: Call): real {
    if Rolls(p, c.at) then c.rolledAt else c.at
  }

  /** Every call of the run passes its rate check. */
  predicate AllPass(p: Pace, calls: seq<Call>)
    decreases calls
  {
    calls != [] ==>
      var checked := CheckRate(p, calls[0].at, calls[0].rolledAt);
      checked.Some? && AllPass(Moved(checked.value, calls[0].written), calls[1..])
  }

  /** A run of writes on one socket: it gets through, or the first failing call ends it. */
  method Transfer(io: DeadlineIo, calls: seq<Call>) returns (stopped: Option<IoError>)
    modifies io`pace
    ensures stopped.None? ==> AllPass(old(io.pace), calls)
    ensures stopped == Some(BelowRate) ==> !AllPass(old(io.pace), calls)
    ensures stopped.Some? && stopped != Some(BelowRate) ==>
              exists i :: 0 <= i < |calls| && io.Check(calls[i].now) == stopped
    decreases calls
  {
    if calls == [] {
      return None;
    }
    var c := calls[0];
    var r := io.Write(c.now, c.at, c.rolledAt, Moves(c.written));
    match r {
      case Failed(e) =>
        return Some(e);
      case Done(_) =>
        ghost var rest := calls[1..];
        stopped := Transfer(io, calls[1..]);
        assert forall i :: 0 <= i < |rest| ==> rest[i] == calls[i + 1];
    }
  }

  /** Each socket call takes at most `w`, and each check comes at most `d` after the call before it. */
  predicate Timed(p: Pace, calls: seq<Call>, w: real, d: real, previousEnd: real)
    decreases calls
  {
    calls != [] ==>
      var c := calls[0];
      && c.at <= c.rolledAt
      && Moment(p, c) <= previousEnd + d
      && c.end <= Moment(p, c) + w
      && (CheckRate(p, c.at, c.rolledAt).Some? ==>
            Timed(Moved(CheckRate(p, c.at, c.rolledAt).value, c.written), calls[1..], w, d, c.end))
  }

  /** The moment at which the last call of a passing run passes its check. */
  function LastMoment(p: Pace, calls: seq<Call>): real
    requires calls != [] && AllPass(p, calls)
    decreases calls
  {
    if |calls| == 1 then Moment(p, calls[0])
    else LastMoment(Moved(CheckRate(p, calls[0].at, calls[0].rolledAt).value, calls[0].written), calls[1..])
  }

  /** The bytes moved before the last call. */
  function BytesBeforeLast(calls: seq<Call>): nat {
    if |calls| <= 1 then 0 else calls[0].written + BytesBeforeLast(calls[1..])
  }

  /** The longest that `windows` finished windows can last: each is over before a check that finds it so. */
  function Windows(windows: nat, w: real, d: real): real {
    windows as real * (PROGRESS_TIMEOUT_SECS + w + d)
  }

  function Bound(bytes: nat, w: real, d: real): real {
    Windows(bytes / MIN_PROGRESS_BYTES, w, d) + PROGRESS_TIMEOUT_SECS
  }

  lemma MoreWindows(few: nat, many: nat, w: real, d: real)
    requires few <= many && w >= 0.0 && d >= 0.0
    ensures Windows(few, w, d) <= Windows(many, w, d)
    ensures Windows(few + 1, w, d) == Windows(few, w, d) + (PROGRESS_TIMEOUT_SECS + w + d)
  {
    Product(few, many, PROGRESS_TIMEOUT_SECS + w + d);
  }

  lemma Product(few: nat, many: nat, span: real)
    requires few <= many && span >= 0.0
    ensures few as real * span <= many as real * span
    ensures (few + 1) as real * span == few as real * span + span
  {
  }

  /**
   Where a passing run stands: `windows` windows have met their quota, `sent` bytes are out, and the
   last call ended soon after the current window opened or before it closed.
   */
  predicate OnPace(p: Pace, start: real, previousEnd: real, windows: nat, sent: nat, w: real, d: real) {
    && p.window - start <= Windows(windows, w, d)
    && previousEnd <= p.window + PROGRESS_TIMEOUT_SECS + w
    && sent >= MIN_PROGRESS_BYTES * windows + p.moved
  }

  /** A call that passes while the window is still open. */
  lemma SameWindow(p: Pace, c: Call, start: real, previousEnd: real, windows: nat, sent: nat, w: real, d: real)
    requires OnPace(p, start, previousEnd, windows, sent, w, d) && w >= 0.0 && d >= 0.0
    requires !Rolls(p, c.at) && c.end <= c.at + w
    ensures OnPace(Moved(p, c.written), start, c.end, windows, sent + c.written, w, d)
    ensures c.at - start < Bound(sent, w, d)
  {
    MoreWindows(windows, sent / MIN_PROGRESS_BYTES, w, d);
  }

  /** A call that passes because the window it closes met its quota. */
  lemma NextWindow(p: Pace, c: Call, start: real, previousEnd: real, windows: nat, sent: nat, w: real, d: real)
    requires OnPace(p, start, previousEnd, windows, sent, w, d) && w >= 0.0 && d >= 0.0
    requires p.moved >= MIN_PROGRESS_BYTES && c.rolledAt <= previousEnd + d && c.end <= c.rolledAt + w
    ensures OnPace(Moved(Pace(c.rolledAt, 0), c.written), start, c.end, windows + 1, sent + c.written, w, d)
    ensures c.rolledAt - start < Bound(sent, w, d)
  {
    MoreWindows(windows, windows, w, d);
    MoreWindows(windows + 1, sent / MIN_PROGRESS_BYTES, w, d);
  }

  lemma {:induction false} PaceBound(p: Pace, calls: seq<Call>, w: real, d: real, previousEnd: real, start: real, windows: nat, sent: nat)
    requires calls != [] && AllPass(p, calls) && Timed(p, calls, w, d, previousEnd) && w >= 0.0 && d >= 0.0
    requires OnPace(p, start, previousEnd, windows, sent, w, d)
    ensures LastMoment(p, calls) - start < Bound(sent + BytesBeforeLast(calls), w, d)
    decreases calls
  {
    var c := calls[0];
    var checked := CheckRate(p, c.at, c.rolledAt).value;
    var next := Moved(checked, c.written);
    if Rolls(p, c.at) {
      NextWindow(p, c, start, previousEnd, windows, sent, w, d);
      if |calls| > 1 {
        PaceBound(next, calls[1..], w, d, c.end, start, windows + 1, sent + c.written);
      }
    } else {
      SameWindow(p, c, start, previousEnd, windows, sent, w, d);
      if |calls| > 1 {
        PaceBound(next, calls[1..], w, d, c.end, start, windows, sent + c.written);
      }
    }
  }

  /**
   The rate bound: between positive reads, a call that passes the check after B bytes passes it
   less than floor(B / 1024) * (30 + w + d) + 30 seconds after the window began.
   */
  lemma RateBound(start: real, calls: seq<Call>, w: real, d: real)
    requires calls != [] && w >= 0.0 && d >= 0.0
    requires AllPass(Pace(start, 0), calls) && Timed(Pace(start, 0), calls, w, d, start)
    ensures LastMoment(Pace(start, 0), calls) - start < Bound(BytesBeforeLast(calls), w, d)
  {
    PaceBound(Pace(start, 0), calls, w, d, start, start, 0, 0);
  }

  /** When the last call of a run that began at `start` is over. */
  function LastEnd(start: real, calls: seq<Call>): real {
    if calls == [] then start else calls[|calls| - 1].end
  }

  lemma {:induction false} LastCallIsTimed(p: Pace, calls: seq<Call>, w: real, d: real, previousEnd: real)
    requires calls != [] && AllPass(p, calls) && Timed(p, calls, w, d, previousEnd)
    ensures LastEnd(previousEnd, calls) <= LastMoment(p, calls) + w
    decreases calls
  {
    if |calls| > 1 {
      var checked := CheckRate(p, calls[0].at, calls[0].rolledAt).value;
      LastCallIsTimed(Moved(checked, calls[0].written), calls[1..], w, d, calls[0].end);
    }
  }

  /** The window after a passing run. */
  function After(p: Pace, calls: seq<Call>): Pace
    requires AllPass(p, calls)
    decreases calls
  {
    if calls == [] then p
    else After(Moved(CheckRate(p, calls[0].at, calls[0].rolledAt).value, calls[0].written), calls[1..])
  }

  /** How a response ends: all of it is out, or the rate check of the next call drops the connection. */
  datatype Ending = Finished | Dropped(check: Call)

  predicate EndsBy(p: Pace, start: real, calls: seq<Call>, ending: Ending, d: real)
    requires AllPass(p, calls)
  {
    ending.Dropped? ==>
      CheckRate(After(p, calls), ending.check.at, ending.check.rolledAt).None? && ending.check.at <= LastEnd(start, calls) + d
  }

  function ReleaseTime(start: real, calls: seq<Call>, ending: Ending): real {
    if ending.Dropped? then ending.check.at else LastEnd(start, calls)
  }

  /**
   A response of `length` bytes holds its slot for a bounded time, however slowly the client reads,
   and even if its very first call is dropped.
   */
  lemma SlotIsReleased(start: real, calls: seq<Call>, w: real, d: real, length: nat, ending: Ending)
    requires w >= 0.0 && d >= 0.0 && BytesBeforeLast(calls) <= length
    requires AllPass(Pace(start, 0), calls) && Timed(Pace(start, 0), calls, w, d, start)
    requires EndsBy(Pace(start, 0), start, calls, ending, d)
    ensures ReleaseTime(start, calls, ending) - start < Bound(length, w, d) + w + if ending.Dropped? then d else 0.0
  {
    MoreWindows(BytesBeforeLast(calls) / MIN_PROGRESS_BYTES, length / MIN_PROGRESS_BYTES, w, d);
    MoreWindows(0, BytesBeforeLast(calls) / MIN_PROGRESS_BYTES, w, d);
    if calls != [] {
      RateBound(start, calls, w, d);
      LastCallIsTimed(Pace(start, 0), calls, w, d, start);
    }
  }
}
