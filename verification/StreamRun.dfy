/** The stream machine over a whole course of queries. */
module StreamRun {
  import opened EventStream
  import opened Jobs
  import opened Wrappers

  const POLL_MS := 500
  const HEARTBEAT_MS := 15000
  const MAX_DURATION_MS := 180000

  /** What one query finds: the job as it stands, and whether the row is there and unexpired. */
  datatype Reading = Reading(job: Job, visible: bool)

  /** `readings(n)` is what the n-th query finds. Round `i` replays with query `2 * i`, reads the status with query
      `2 * i + 1` and then the time `clock(i)`. */
  datatype Course = Course(from: nat, readings: nat -> Reading, start: int, clock: nat -> int)

  predicate TimeoutAt(h: Course, i: nat) { h.clock(i) - h.start >= MAX_DURATION_MS }

  function LastSent(from: nat, sent: seq<Event>): nat {
    if sent == [] then from else sent[|sent| - 1].number
  }

  /** `m` steps of the machine, all within the query that found `r`. */
  function Steps(r: Reading, c: Stream, timeout: bool, m: nat): Stream {
    if m == 0 then c else Advance(r.job, r.visible, Steps(r, c, timeout, m - 1), timeout)
  }

  /** A replay opens its cursor, sends each row and finds the cursor exhausted; a status query is a single step. */
  function Query(r: Reading, c: Stream, timeout: bool): Stream {
    if c.phase == Ready || c.phase.FinalReady?
    then Steps(r, c, timeout, |Rows(r.job.log, r.visible, c.last)| + 2)
    else Advance(r.job, r.visible, c, timeout)
  }

  /** The machine after `n` queries. */
  function Machine(h: Course, n: nat): Stream {
    if n == 0 then Opened(h.from)
    else Query(h.readings(n - 1), Machine(h, n - 1), TimeoutAt(h, (n - 1) / 2))
  }

  /** With its cursor open and `m` rows of it sent. */
  function Sending(c: Stream, rows: seq<Event>, m: nat, final: bool, visible: bool): Stream
    requires m <= |rows| && (final ==> c.phase.FinalReady?)
  {
    Stream(c.from, LastSent(c.last, rows[..m]),
           if final then FinalDraining(rows[m..], c.phase.seen, visible) else Draining(rows[m..]), c.wire + rows[..m])
  }

  lemma {:induction false} StepsSend(r: Reading, c: Stream, timeout: bool, m: nat)
    requires (c.phase == Ready || c.phase.FinalReady?) && m <= |Rows(r.job.log, r.visible, c.last)|
    ensures Steps(r, c, timeout, m + 1)
         == Sending(c, Rows(r.job.log, r.visible, c.last), m, c.phase.FinalReady?, r.visible)
  {
    var rows, final := Rows(r.job.log, r.visible, c.last), c.phase.FinalReady?;
    if m == 0 {
      assert Steps(r, c, timeout, 0) == c;
      assert c.wire + rows[..0] == c.wire && rows[0..] == rows;
    } else {
      StepsSend(r, c, timeout, m - 1);
      OneRowMore(r, Sending(c, rows, m - 1, final, r.visible), c, rows, m - 1, timeout);
    }
  }

  lemma OneRowMore(r: Reading, sending: Stream, c: Stream, rows: seq<Event>, m: nat, timeout: bool)
    requires (c.phase == Ready || c.phase.FinalReady?) && m < |rows|
    requires sending == Sending(c, rows, m, c.phase.FinalReady?, r.visible)
    ensures Advance(r.job, r.visible, sending, timeout) == Sending(c, rows, m + 1, c.phase.FinalReady?, r.visible)
  {
    assert rows[..m + 1] == rows[..m] + [rows[m]] && rows[m..][1..] == rows[m + 1..] && rows[m..][0] == rows[m];
    assert c.wire + rows[..m + 1] == c.wire + rows[..m] + [rows[m]];
  }

  /** A replay sends exactly its rows. */
  lemma QueryReplays(r: Reading, c: Stream, timeout: bool)
    requires c.phase == Ready || c.phase.FinalReady?
    ensures var rows, phase := Rows(r.job.log, r.visible, c.last),
                if c.phase == Ready then Checking else Ended(c.phase.seen, r.visible);
            Query(r, c, timeout) == Stream(c.from, LastSent(c.last, rows), phase, c.wire + rows)
  {
    var rows := Rows(r.job.log, r.visible, c.last);
    StepsSend(r, c, timeout, |rows|);
    assert rows[..|rows|] == rows;
  }

  lemma LastSentConcat(from: nat, a: seq<Event>, b: seq<Event>)
    ensures LastSent(LastSent(from, a), b) == LastSent(from, a + b)
  {
  }

  /** The machine has made `query` queries, is about to replay and has sent exactly `sent`. */
  predicate Stands(h: Course, query: nat, sent: seq<Event>) {
    Machine(h, query) == Stream(h.from, LastSent(h.from, sent), Ready, sent)
  }
}
