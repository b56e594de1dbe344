/** One server-sent event stream: it replays the log from a number on, polls, and drains once more when it has read a
    final status. The log and the status are read in separate transactions, so the worker moves in between. */
module EventStream {
  import opened Jobs
  import opened Wrappers

  /** What a status read found: the status if the row was visible. `mark` is how long the log was at that moment and
      `before` the last number sent by then; the code keeps neither. */
  datatype Sighting = Sighting(status: Option<Status>, mark: nat, before: nat)

  datatype Phase =
    | Ready
    | Draining(rows: seq<Event>)
    | Checking
    | FinalReady(seen: Sighting)
    | FinalDraining(rows: seq<Event>, seen: Sighting, visible: bool)
    | Ended(seen: Sighting, visible: bool)
    | TimedOut
    | Dropped

  /** `wire` is every frame sent so far. */
  datatype Stream = Stream(from: nat, last: nat, phase: Phase, wire: seq<Event>)

  function Opened(from: nat): Stream { Stream(from, from, Ready, []) }

  /** A replay query sees nothing of a job whose row is gone or expired. */
  function Rows(log: seq<Event>, visible: bool, from: nat): seq<Event> {
    if visible then After(log, from) else []
  }

  function Send(c: Stream, row: Event, phase: Phase): Stream {
    c.(wire := c.wire + [row], last := row.number, phase := phase)
  }

  /** The next stretch of the generator, up to a point where others may run. A cursor sees the rows that were there when
      it was opened. `timeout` tells whether the maximal duration has passed. */
  function Advance(j: Job, visible: bool, c: Stream, timeout: bool): Stream {
    match c.phase
    case Ready => c.(phase := Draining(Rows(j.log, visible, c.last)))
    case Draining(rows) => if rows == [] then c.(phase := Checking) else Send(c, rows[0], Draining(rows[1..]))
    case Checking =>
      var seen := Sighting(if visible then Some(j.status) else None, |j.log|, c.last);
      if !visible || j.status in {Done, Failed} then c.(phase := FinalReady(seen))
      else if timeout then c.(phase := TimedOut) else c.(phase := Ready)
    case FinalReady(seen) => c.(phase := FinalDraining(Rows(j.log, visible, c.last), seen, visible))
    case FinalDraining(rows, seen, v) =>
      if rows == [] then c.(phase := Ended(seen, v)) else Send(c, rows[0], FinalDraining(rows[1..], seen, v))
    case _ => c
  }

  function Drop(c: Stream): Stream {
    if c.phase.Ended? || c.phase.TimedOut? then c else c.(phase := Dropped)
  }

  // ---- The invariant ----

  function Unsent(c: Stream): seq<Event> {
    match c.phase
    case Draining(rows) => rows
    case FinalDraining(rows, _, _) => rows
    case _ => []
  }

  /** What was sent and what the open cursor still holds is the stretch of the log that follows `from`. */
  predicate Contiguous(log: seq<Event>, c: Stream) {
    var n := |c.wire| + |Unsent(c)|;
    && c.last == c.from + |c.wire|
    && (n > 0 ==> c.from + n <= |log| && c.wire + Unsent(c) == log[c.from..c.from + n])
  }

  predicate SightingHolds(j: Job, seen: Sighting) {
    && seen.mark <= |j.log|
    && (seen.status.Some? ==> seen.status.value in {Done, Failed} && j.status == seen.status.value)
    && (seen.status == Some(Done) ==> seen.mark >= 2 * |j.plan| + 2)
    && (seen.status == Some(Failed) ==> seen.mark == |j.log|)
  }

  predicate Sighted(j: Job, c: Stream) {
    match c.phase
    case FinalReady(seen) => SightingHolds(j, seen) && seen.before == c.last
    case FinalDraining(rows, seen, visible) =>
      && SightingHolds(j, seen)
      && (if visible then seen.mark <= c.last + |rows| else rows == [] && seen.before == c.last)
    case Ended(seen, visible) =>
      && SightingHolds(j, seen)
      && (if visible then seen.mark <= c.last else seen.before == c.last)
    case _ => true
  }

  predicate StreamInv(j: Job, c: Stream) { Contiguous(j.log, c) && Sighted(j, c) }

  lemma OpenedSatisfiesInv(j: Job, from: nat)
    ensures StreamInv(j, Opened(from))
  {
  }

  lemma SendKeepsContiguous(log: seq<Event>, c: Stream, rows: seq<Event>, phase: Phase)
    requires Numbered(log) && Contiguous(log, c) && Unsent(c) == rows != []
    requires Unsent(Send(c, rows[0], phase)) == rows[1..]
    ensures Contiguous(log, Send(c, rows[0], phase)) && Send(c, rows[0], phase).last == c.last + 1
  {
    var all := c.wire + rows;
    assert all[|c.wire|] == rows[0] && log[c.from + |c.wire|] == rows[0];
    assert c.wire + [rows[0]] + rows[1..] == all;
  }

  lemma CursorKeepsContiguous(log: seq<Event>, visible: bool, c: Stream, phase: Phase)
    requires Numbered(log) && Contiguous(log, c) && Unsent(c) == []
    requires Unsent(c.(phase := phase)) == Rows(log, visible, c.last)
    ensures Contiguous(log, c.(phase := phase))
    ensures visible ==> |log| <= c.last + |Rows(log, visible, c.last)|
  {
    AfterIsSuffix(log, 0, c.last);
    var rows := Rows(log, visible, c.last);
    if rows != [] {
      assert rows == log[c.last..];
      assert c.wire + Unsent(c) == c.wire;
      assert c.wire == log[c.from..c.last];
      assert c.wire + rows == log[c.from..|log|];
    } else {
      assert c.wire + rows == c.wire;
    }
  }

  lemma PollKeepsInv(j: Job, visible: bool, c: Stream, timeout: bool)
    requires Numbered(j.log) && StreamInv(j, c) && (c.phase == Ready || c.phase.FinalReady?)
    ensures StreamInv(j, Advance(j, visible, c, timeout))
  {
    CursorKeepsContiguous(j.log, visible, c, Advance(j, visible, c, timeout).phase);
  }

  lemma RowKeepsInv(j: Job, visible: bool, c: Stream, timeout: bool)
    requires Numbered(j.log) && StreamInv(j, c) && (c.phase.Draining? || c.phase.FinalDraining?) && c.phase.rows != []
    ensures StreamInv(j, Advance(j, visible, c, timeout))
  {
    SendKeepsContiguous(j.log, c, c.phase.rows, Advance(j, visible, c, timeout).phase);
  }

  /** The generator's own steps keep the invariant, whatever it finds in the database. */
  lemma AdvanceKeepsInv(j: Job, visible: bool, c: Stream, timeout: bool)
    requires Numbered(j.log) && StreamInv(j, c) && (j.status == Done ==> |j.log| >= 2 * |j.plan| + 2)
    ensures StreamInv(j, Advance(j, visible, c, timeout))
  {
    if c.phase == Ready || c.phase.FinalReady? {
      PollKeepsInv(j, visible, c, timeout);
    } else if (c.phase.Draining? || c.phase.FinalDraining?) && c.phase.rows != [] {
      RowKeepsInv(j, visible, c, timeout);
    }
  }

  /** The open cursor holds the events that follow the last one sent. */
  predicate HoldsRows(c: Stream) {
    c.phase.Draining? && forall i :: 0 <= i < |c.phase.rows| ==> c.phase.rows[i].number == c.last + i + 1
  }

  /** The stream once it has sent `m` rows of its cursor. */
  function Sent(c: Stream, m: nat): Stream
    requires c.phase.Draining? && m <= |c.phase.rows|
  {
    c.(wire := c.wire + c.phase.rows[..m], last := c.last + m, phase := Draining(c.phase.rows[m..]))
  }

  lemma SendsNextRow(j: Job, visible: bool, c: Stream, m: nat)
    requires HoldsRows(c) && m < |c.phase.rows|
    ensures Advance(j, visible, Sent(c, m), false) == Sent(c, m + 1)
  {
    var rows := c.phase.rows;
    assert rows[..m + 1] == rows[..m] + [rows[m]] && rows[m..][1..] == rows[m + 1..];
    assert c.wire + rows[..m + 1] == c.wire + rows[..m] + [rows[m]];
  }

  /** So does everything the worker does meanwhile: the log grows, the status moves on, a failed job stays as it is. */
  lemma GrowthKeepsInv(j: Job, j': Job, c: Stream)
    requires StreamInv(j, c) && j.plan == j'.plan && j.log <= j'.log
    requires j.status == Failed ==> j' == j
    requires j.status == Done ==> j'.status == Done
    ensures StreamInv(j', c)
  {
    var n := |c.wire| + |Unsent(c)|;
    if n > 0 {
      assert j'.log[c.from..c.from + n] == j.log[c.from..c.from + n];
    }
  }

  /** A stream that ended because it read a final status has sent everything logged before that read, beyond where it
      started, exactly if the job was still visible when it drained for the last time, or nothing new had been logged
      between its last poll and the read. What it sent is a contiguous stretch of the log in any case. */
  lemma EndedStreamIsComplete(j: Job, c: Stream)
    requires Numbered(j.log) && StreamInv(j, c) && c.phase.Ended?
    ensures c.wire != [] ==> c.from + |c.wire| <= |j.log| && c.wire == j.log[c.from..c.from + |c.wire|]
    ensures (forall i :: c.from <= i < c.phase.seen.mark ==> j.log[i] in c.wire)
            <==> c.phase.visible || c.phase.seen.before >= c.phase.seen.mark
  {
    assert c.wire + Unsent(c) == c.wire;
    var mark := c.phase.seen.mark;
    if c.last >= mark {
      forall i | c.from <= i < mark ensures j.log[i] in c.wire {
        assert c.wire[i - c.from] == j.log[i];
      }
    } else {
      NotSent(j, c, c.last);
    }
  }

  lemma NotSent(j: Job, c: Stream, i: nat)
    requires Numbered(j.log) && Contiguous(j.log, c) && Unsent(c) == [] && c.last <= i < |j.log|
    ensures j.log[i] !in c.wire
  {
    assert c.wire + Unsent(c) == c.wire;
    forall k | 0 <= k < |c.wire| ensures c.wire[k] != j.log[i] {
      assert c.wire[k] == j.log[c.from + k];
    }
  }

  /** Consequently a stream that read `done` has delivered everything through the summary, and one that read `failed`
      everything there will ever be. */
  lemma FinalStatusMeansDelivered(j: Job, c: Stream)
    requires Numbered(j.log) && StreamInv(j, c) && c.phase.Ended? && c.phase.visible
    ensures c.phase.seen.status == Some(Done) ==>
              |j.log| >= 2 * |j.plan| + 2 && forall i :: c.from <= i < 2 * |j.plan| + 2 ==> j.log[i] in c.wire
    ensures c.phase.seen.status == Some(Failed) ==> forall i :: c.from <= i < |j.log| ==> j.log[i] in c.wire
  {
    EndedStreamIsComplete(j, c);
  }

  /** The exception is real. Whenever a stream is about to read the status with events still unsent, the job is done,
      and the row expires right after that read, the stream ends without them. */
  lemma ExpiryAfterTheReadLosesEvents(j: Job, c: Stream)
    requires Numbered(j.log) && StreamInv(j, c) && c.phase == Checking && j.status == Done && c.last < |j.log|
    ensures var ended := Advance(j, false, Advance(j, false, Advance(j, true, c, false), false), false);
            && ended.phase == Ended(Sighting(Some(Done), |j.log|, c.last), false)
            && j.log[c.last] !in ended.wire
  {
    var ended := Advance(j, false, Advance(j, false, Advance(j, true, c, false), false), false);
    assert c.wire + Unsent(c) == c.wire;
    NotSent(j, ended, c.last);
  }
}
