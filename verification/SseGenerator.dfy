/** The generator behind the event stream, as the code runs it: replay, read the status, replay once more if it is
    final, otherwise wait and start over. Its frames are determined by what its queries find and by the clock, and its
    events are those the stream machine sends over the same queries. */
module SseGenerator {
  import opened EventStream
  import opened Jobs
  import JobWorker
  import opened StreamRun
  import opened Wrappers

  /** The last two are comments that browsers ignore. */
  datatype Frame = Data(event: Event) | Heartbeat | StreamTimeout

  function Frames(events: seq<Event>): seq<Frame> {
    seq(|events|, i requires 0 <= i < |events| => Data(events[i]))
  }

  /** The events among the frames. */
  function Payloads(frames: seq<Frame>): seq<Event> {
    if frames == [] then []
    else
      var before, last := Payloads(frames[..|frames| - 1]), frames[|frames| - 1];
      if last.Data? then before + [last.event] else before
  }

  // ---- What the generator yields ----

  function Replay(h: Course, query: nat, sent: seq<Event>): seq<Event> {
    Rows(h.readings(query).job.log, h.readings(query).visible, LastSent(h.from, sent))
  }

  /** The events of the first `n` rounds. */
  function SentBefore(h: Course, n: nat): seq<Event> {
    if n == 0 then [] else SentBefore(h, n - 1) + Replay(h, 2 * (n - 1), SentBefore(h, n - 1))
  }

  predicate FinalAt(h: Course, i: nat) {
    !h.readings(2 * i + 1).visible || h.readings(2 * i + 1).job.status in {Done, Failed}
  }

  predicate GoesOn(h: Course, n: nat) {
    forall i :: 0 <= i < n ==> !FinalAt(h, i) && !TimeoutAt(h, i)
  }

  /** The first round that finds the status final, or the time up. */
  predicate StopsIn(h: Course, k: nat) { GoesOn(h, k) && (FinalAt(h, k) || TimeoutAt(h, k)) }

  function LastBeat(h: Course, n: nat): int {
    if n == 0 then h.start
    else if h.clock(n - 1) - LastBeat(h, n - 1) >= HEARTBEAT_MS then h.clock(n - 1)
    else LastBeat(h, n - 1)
  }

  function Beat(h: Course, i: nat): seq<Frame> {
    if h.clock(i) - LastBeat(h, i) >= HEARTBEAT_MS then [Heartbeat] else []
  }

  function FramesBefore(h: Course, n: nat): seq<Frame> {
    if n == 0 then []
    else FramesBefore(h, n - 1) + Frames(Replay(h, 2 * (n - 1), SentBefore(h, n - 1))) + Beat(h, n - 1)
  }

  /** The same and the replay of round `n`. */
  function FramesInto(h: Course, n: nat): seq<Frame> {
    FramesBefore(h, n) + Frames(Replay(h, 2 * n, SentBefore(h, n)))
  }

  /** Everything, if round `k` is the last. */
  function Transcript(h: Course, k: nat): seq<Frame> {
    if FinalAt(h, k) then FramesInto(h, k) + Frames(Replay(h, 2 * k + 2, SentBefore(h, k + 1)))
    else FramesInto(h, k) + Beat(h, k) + [StreamTimeout]
  }

  lemma RoundAddsUp(h: Course, n: nat)
    ensures SentBefore(h, n + 1) == SentBefore(h, n) + Replay(h, 2 * n, SentBefore(h, n))
    ensures FramesBefore(h, n + 1) == FramesInto(h, n) + Beat(h, n)
    ensures LastBeat(h, n + 1) == if Beat(h, n) == [] then LastBeat(h, n) else h.clock(n)
  {
  }

  /** Yields the rows of an open cursor. */
  method Forward(frames: seq<Frame>, last: nat, rows: seq<Event>) returns (frames': seq<Frame>, last': nat)
    ensures frames' == frames + Frames(rows)
    ensures last' == LastSent(last, rows)
  {
    frames', last' := frames, last;
    for i := 0 to |rows|
      invariant frames' == frames + Frames(rows[..i]) && last' == LastSent(last, rows[..i])
    {
      last', frames' := rows[i].number, frames' + [Data(rows[i])];
    }
    assert rows[..|rows|] == rows;
  }

  /** Replays what the log holds beyond the last number sent. */
  method Drain(h: Course, query: nat, frames: seq<Frame>, last: nat, ghost sent: seq<Event>)
    returns (frames': seq<Frame>, last': nat)
    requires last == LastSent(h.from, sent)
    ensures frames' == frames + Frames(Replay(h, query, sent))
    ensures last' == LastSent(h.from, sent + Replay(h, query, sent))
  {
    var r := h.readings(query);
    frames', last' := Forward(frames, last, Rows(r.job.log, r.visible, last));
  }

  /** The first replay of a round. */
  method DrainRound(h: Course, round: nat, frames: seq<Frame>, last: nat) returns (frames': seq<Frame>, last': nat)
    requires frames == FramesBefore(h, round) && last == LastSent(h.from, SentBefore(h, round))
    ensures frames' == FramesInto(h, round) && last' == LastSent(h.from, SentBefore(h, round + 1))
  {
    frames', last' := Drain(h, 2 * round, frames, last, SentBefore(h, round));
    RoundAddsUp(h, round);
  }

  ghost predicate Yields(h: Course, frames: seq<Frame>) {
    exists k: nat :: StopsIn(h, k) && frames == Transcript(h, k)
  }

  /** There is only one first round to stop in, so a course determines its frames. */
  lemma FramesAreDetermined(h: Course, frames: seq<Frame>, k: nat)
    requires Yields(h, frames) && StopsIn(h, k)
    ensures frames == Transcript(h, k)
  {
    var j: nat :| StopsIn(h, j) && frames == Transcript(h, j);
    assert j == k;
  }

  /** Sleeps are not short. */
  method Generate(h: Course) returns (frames: seq<Frame>)
    requires forall i: nat :: h.clock(i) + POLL_MS <= h.clock(i + 1)
    ensures Yields(h, frames)
  {
    var last, lastHeartbeat := h.from, h.start;
    frames := [];
    var round := 0;
    while true
      invariant GoesOn(h, round) && frames == FramesBefore(h, round)
      invariant last == LastSent(h.from, SentBefore(h, round)) && lastHeartbeat == LastBeat(h, round)
      decreases h.start + MAX_DURATION_MS - h.clock(round)
    {
      frames, last := DrainRound(h, round, frames, last);
      var row := h.readings(2 * round + 1);
      if !row.visible || row.job.status in {Done, Failed} {
        frames, last := Drain(h, 2 * round + 2, frames, last, SentBefore(h, round + 1));
        assert StopsIn(h, round) && frames == Transcript(h, round);
        return;
      }
      var now := h.clock(round);
      if now - lastHeartbeat >= HEARTBEAT_MS {
        frames, lastHeartbeat := frames + [Heartbeat], now;
      }
      assert frames == FramesInto(h, round) + Beat(h, round);
      if now - h.start >= MAX_DURATION_MS {
        frames := frames + [StreamTimeout];
        assert StopsIn(h, round) && frames == Transcript(h, round);
        return;
      }
      RoundAddsUp(h, round);
      round := round + 1;
    }
  }

  // ---- Its events ----

  lemma {:induction false} PayloadsConcat(a: seq<Frame>, b: seq<Frame>)
    ensures Payloads(a + b) == Payloads(a) + Payloads(b)
    decreases |b|
  {
    if b == [] {
      assert a + b == a;
    } else {
      assert (a + b)[..|a + b| - 1] == a + b[..|b| - 1];
      PayloadsConcat(a, b[..|b| - 1]);
    }
  }

  lemma {:induction false} PayloadsOfFrames(events: seq<Event>)
    ensures Payloads(Frames(events)) == events
  {
    if events != [] {
      assert Frames(events)[..|events| - 1] == Frames(events[..|events| - 1]);
      PayloadsOfFrames(events[..|events| - 1]);
    }
  }

  lemma NoEventInBeat(h: Course, i: nat)
    ensures Payloads(Beat(h, i)) == []
    ensures StreamTimeout !in Beat(h, i)
  {
  }

  lemma EventsAdd(before: seq<Frame>, sent: seq<Event>, rows: seq<Event>, tail: seq<Frame>)
    requires Payloads(before) == sent && Payloads(tail) == []
    ensures Payloads(before + Frames(rows) + tail) == sent + rows
    ensures StreamTimeout in before + Frames(rows) + tail <==> StreamTimeout in before || StreamTimeout in tail
  {
    PayloadsOfFrames(rows);
    PayloadsConcat(before, Frames(rows));
    PayloadsConcat(before + Frames(rows), tail);
  }

  lemma {:induction false} EventsOfRounds(h: Course, n: nat)
    ensures Payloads(FramesBefore(h, n)) == SentBefore(h, n) && StreamTimeout !in FramesBefore(h, n)
  {
    if n > 0 {
      EventsOfRounds(h, n - 1);
      NoEventInBeat(h, n - 1);
      var sent := SentBefore(h, n - 1);
      EventsAdd(FramesBefore(h, n - 1), sent, Replay(h, 2 * (n - 1), sent), Beat(h, n - 1));
      RoundAddsUp(h, n - 1);
    }
  }

  /** Every event sent, if round `k` is the last. */
  function Delivered(h: Course, k: nat): seq<Event> {
    if FinalAt(h, k) then SentBefore(h, k + 1) + Replay(h, 2 * k + 2, SentBefore(h, k + 1)) else SentBefore(h, k + 1)
  }

  /** The events in a transcript are those of its replays; it ends with a timeout frame exactly if the status was not
      final, and then the time is up. */
  lemma EventsOfTranscript(h: Course, k: nat)
    requires StopsIn(h, k)
    ensures Payloads(Transcript(h, k)) == Delivered(h, k)
    ensures StreamTimeout in Transcript(h, k) <==> !FinalAt(h, k)
    ensures StreamTimeout in Transcript(h, k) ==> h.clock(k) - h.start >= MAX_DURATION_MS
  {
    EventsOfRounds(h, k);
    NoEventInBeat(h, k);
    RoundAddsUp(h, k);
    LastRound(FramesBefore(h, k), SentBefore(h, k), Replay(h, 2 * k, SentBefore(h, k)), Beat(h, k),
              Replay(h, 2 * k + 2, SentBefore(h, k + 1)));
  }

  /** Both ways the last round can end. */
  lemma LastRound(before: seq<Frame>, sent: seq<Event>, rows: seq<Event>, beat: seq<Frame>, more: seq<Event>)
    requires Payloads(before) == sent && Payloads(beat) == [] && StreamTimeout !in before && StreamTimeout !in beat
    ensures var into := before + Frames(rows);
            && Payloads(into + Frames(more)) == sent + rows + more && StreamTimeout !in into + Frames(more)
            && Payloads(into + beat + [StreamTimeout]) == sent + rows
  {
    var into := before + Frames(rows);
    EventsAdd(before, sent, rows, []);
    assert into + [] == into;
    EventsAdd(into, sent + rows, more, []);
    assert into + Frames(more) + [] == into + Frames(more);
    EventsAdd(before, sent, rows, beat);
    PayloadsConcat(into + beat, [StreamTimeout]);
  }

  // ---- The stream machine over the same queries ----

  lemma StatusGoesOn(r: Reading, c: Stream)
    requires c.phase == Checking && r.visible && r.job.status !in {Done, Failed}
    ensures Query(r, c, false) == c.(phase := Ready)
  {
  }

  lemma StatusStops(r: Reading, c: Stream, timeout: bool)
    requires c.phase == Checking
    requires !r.visible || r.job.status in {Done, Failed} || timeout
    ensures var seen := Sighting(if r.visible then Some(r.job.status) else None, |r.job.log|, c.last);
            Query(r, c, timeout)
            == c.(phase := if !r.visible || r.job.status in {Done, Failed} then FinalReady(seen) else TimedOut)
  {
  }

  lemma OneQueryMore(h: Course, query: nat, i: nat, c: Stream)
    requires Machine(h, query) == c && query / 2 == i
    ensures Machine(h, query + 1) == Query(h.readings(query), c, TimeoutAt(h, i))
  {
  }

  lemma MachineOnward(h: Course, i: nat, query: nat, c: Stream)
    requires query == 2 * i + 1 && Machine(h, query) == c
    requires c.phase == Checking && !FinalAt(h, i) && !TimeoutAt(h, i)
    ensures Machine(h, query + 1) == c.(phase := Ready)
  {
    OneQueryMore(h, query, i, c);
    StatusGoesOn(h.readings(query), c);
  }

  lemma MachineReplays(h: Course, query: nat, sent: seq<Event>)
    requires Stands(h, query, sent)
    ensures var more := sent + Replay(h, query, sent);
            Machine(h, query + 1) == Stream(h.from, LastSent(h.from, more), Checking, more)
  {
    QueryReplays(h.readings(query), Machine(h, query), TimeoutAt(h, query / 2));
    LastSentConcat(h.from, sent, Replay(h, query, sent));
  }

  lemma StandsOneRoundOn(h: Course, i: nat, query: nat, sent: seq<Event>, more: seq<Event>)
    requires query == 2 * i && Stands(h, query, sent) && more == sent + Replay(h, query, sent)
    requires !FinalAt(h, i) && !TimeoutAt(h, i)
    ensures Stands(h, query + 2, more)
  {
    MachineReplays(h, query, sent);
    MachineOnward(h, i, query + 1, Stream(h.from, LastSent(h.from, more), Checking, more));
  }

  lemma EarlierRound(h: Course, n: nat)
    requires n > 0 && GoesOn(h, n)
    ensures GoesOn(h, n - 1) && !FinalAt(h, n - 1) && !TimeoutAt(h, n - 1)
    ensures SentBefore(h, n) == SentBefore(h, n - 1) + Replay(h, 2 * (n - 1), SentBefore(h, n - 1))
  {
  }

  lemma StandsAtStart(h: Course)
    ensures Stands(h, 0, [])
  {
  }

  lemma StandsNext(h: Course, n: nat, query: nat, before: seq<Event>, sent: seq<Event>)
    requires n > 0 && GoesOn(h, n) && query == 2 * (n - 1) && Stands(h, query, before)
    requires before == SentBefore(h, n - 1) && sent == SentBefore(h, n)
    ensures Stands(h, query + 2, sent)
  {
    EarlierRound(h, n);
    StandsOneRoundOn(h, n - 1, query, before, sent);
  }

  /** At the start of each round the machine stands where the generator does. */
  lemma {:induction false} MachineAtRound(h: Course, n: nat, query: nat, sent: seq<Event>)
    requires GoesOn(h, n) && query == 2 * n && sent == SentBefore(h, n)
    ensures Stands(h, query, sent)
    decreases n
  {
    if n == 0 {
      StandsAtStart(h);
    } else {
      MachineAtRound(h, n - 1, query - 2, SentBefore(h, n - 1));
      StandsNext(h, n, query - 2, SentBefore(h, n - 1), sent);
    }
  }

  lemma MachineInRound(h: Course, n: nat, query: nat, sent: seq<Event>)
    requires GoesOn(h, n) && query == 2 * n && sent == SentBefore(h, n + 1)
    ensures Machine(h, query + 1) == Stream(h.from, LastSent(h.from, sent), Checking, sent)
  {
    MachineAtRound(h, n, query, SentBefore(h, n));
    MachineReplays(h, query, SentBefore(h, n));
    RoundAddsUp(h, n);
  }

  /** How many queries the generator makes if round `k` is the last. */
  function Queries(h: Course, k: nat): nat { if FinalAt(h, k) then 2 * k + 3 else 2 * k + 2 }

  /** What the status query of the last round finds. */
  function LastSighting(h: Course, k: nat): Sighting {
    var r := h.readings(2 * k + 1);
    Sighting(if r.visible then Some(r.job.status) else None, |r.job.log|, LastSent(h.from, SentBefore(h, k + 1)))
  }

  lemma StatusEnds(h: Course, k: nat, query: nat, c: Stream)
    requires StopsIn(h, k) && query == 2 * k + 1 && Machine(h, query) == c && c.phase == Checking
    requires c.last == LastSent(h.from, SentBefore(h, k + 1))
    ensures Machine(h, query + 1) == c.(phase := if FinalAt(h, k) then FinalReady(LastSighting(h, k)) else TimedOut)
  {
    OneQueryMore(h, query, k, c);
    StatusStops(h.readings(query), c, TimeoutAt(h, k));
  }

  lemma MachineAtStatus(h: Course, k: nat, query: nat, sent: seq<Event>)
    requires StopsIn(h, k) && query == 2 * k + 1 && sent == SentBefore(h, k + 1)
    ensures Machine(h, query + 1)
         == Stream(h.from, LastSent(h.from, sent),
                   if FinalAt(h, k) then FinalReady(LastSighting(h, k)) else TimedOut, sent)
  {
    MachineInRound(h, k, query - 1, sent);
    StatusEnds(h, k, query, Stream(h.from, LastSent(h.from, sent), Checking, sent));
  }

  lemma MachineAtEnd(h: Course, k: nat, query: nat, sent: seq<Event>)
    requires StopsIn(h, k) && FinalAt(h, k) && query == 2 * k + 2 && sent == SentBefore(h, k + 1)
    ensures var all := sent + Replay(h, query, sent);
            Machine(h, query + 1)
            == Stream(h.from, LastSent(h.from, all), Ended(LastSighting(h, k), h.readings(query).visible), all)
  {
    MachineAtStatus(h, k, query - 1, sent);
    QueryReplays(h.readings(query), Machine(h, query), TimeoutAt(h, query / 2));
    LastSentConcat(h.from, sent, Replay(h, query, sent));
  }

  /** After the generator's queries, and not before, the machine has stopped, and its wire holds the generator's
      events. */
  lemma GeneratorIsMachine(h: Course, k: nat)
    requires StopsIn(h, k)
    ensures var c := Machine(h, Queries(h, k));
            && c.from == h.from && c.wire == Payloads(Transcript(h, k))
            && c.phase == if FinalAt(h, k) then Ended(LastSighting(h, k), h.readings(2 * k + 2).visible) else TimedOut
    ensures forall n: nat :: n < Queries(h, k) ==> !Over(Machine(h, n))
  {
    EventsOfTranscript(h, k);
    MachineAtStatus(h, k, 2 * k + 1, SentBefore(h, k + 1));
    if FinalAt(h, k) { MachineAtEnd(h, k, 2 * k + 2, SentBefore(h, k + 1)); }
    forall n: nat | n < Queries(h, k) ensures !Over(Machine(h, n)) {
      NotYetOver(h, k, n);
    }
  }

  predicate Over(c: Stream) { c.phase.Ended? || c.phase.TimedOut? }

  lemma NotYetOver(h: Course, k: nat, n: nat)
    requires StopsIn(h, k) && n < Queries(h, k)
    ensures !Over(Machine(h, n))
  {
    if n == 2 * k + 2 {
      MachineAtStatus(h, k, 2 * k + 1, SentBefore(h, k + 1));
    } else {
      EarlyIsNotOver(h, n / 2, n);
    }
  }

  lemma EarlyIsNotOver(h: Course, i: nat, n: nat)
    requires GoesOn(h, i) && (n == 2 * i || n == 2 * i + 1)
    ensures !Over(Machine(h, n))
  {
    if n == 2 * i {
      MachineAtRound(h, i, n, SentBefore(h, i));
    } else {
      MachineInRound(h, i, n - 1, SentBefore(h, i + 1));
    }
  }

  // ---- Against a job that moves on ----

  predicate Sound(j: Job) {
    Numbered(j.log) && (j.status == Done ==> |j.log| >= 2 * |j.plan| + 2)
  }

  /** The worker may have moved on between two queries. */
  predicate Evolves(r: Reading, r': Reading) {
    && Sound(r.job) && Sound(r'.job) && r.job.plan == r'.job.plan && r.job.log <= r'.job.log
    && (r.job.status == Failed ==> r'.job == r.job) && (r.job.status == Done ==> r'.job.status == Done)
  }

  ghost predicate History(h: Course) {
    forall n: nat :: Evolves(h.readings(n), h.readings(n + 1))
  }

  /** Any two moments of a worker's run may follow each other as readings. */
  lemma {:induction false} WorkerRunsEvolve(w: JobWorker.World, steps: seq<JobWorker.WorkerStep>)
    requires JobWorker.Inv(w)
    ensures var w' := JobWorker.Run(w, steps);
            Evolves(Reading(w.job, JobWorker.Visible(w)), Reading(w'.job, JobWorker.Visible(w')))
  {
    ScriptedIsNumbered(w.job.plan, w.results, w.job.log);
    if steps != [] {
      var w1, step := JobWorker.Run(w, steps[..|steps| - 1]), steps[|steps| - 1];
      WorkerRunsEvolve(w, steps[..|steps| - 1]);
      JobWorker.RunKeepsInv(w, steps[..|steps| - 1]);
      JobWorker.StepMovesForward(w1, step);
      JobWorker.StepKeepsInv(w1, step);
      var w2 := JobWorker.Apply(w1, step);
      ScriptedIsNumbered(w2.job.plan, w2.results, w2.job.log);
    }
  }

  lemma {:induction false} StepsKeepInv(r: Reading, c: Stream, timeout: bool, m: nat)
    requires Sound(r.job) && StreamInv(r.job, c)
    ensures StreamInv(r.job, Steps(r, c, timeout, m))
  {
    if m > 0 {
      StepsKeepInv(r, c, timeout, m - 1);
      AdvanceKeepsInv(r.job, r.visible, Steps(r, c, timeout, m - 1), timeout);
    }
  }

  lemma QueryKeepsInv(r: Reading, c: Stream, timeout: bool)
    requires Sound(r.job) && StreamInv(r.job, c)
    ensures StreamInv(r.job, Query(r, c, timeout))
  {
    StepsKeepInv(r, c, timeout, |Rows(r.job.log, r.visible, c.last)| + 2);
    AdvanceKeepsInv(r.job, r.visible, c, timeout);
  }

  lemma {:induction false} MachineKeepsInv(h: Course, n: nat)
    requires History(h)
    ensures StreamInv(h.readings(n).job, Machine(h, n))
  {
    assert Evolves(h.readings(n), h.readings(n + 1));
    if n > 0 {
      MachineKeepsInv(h, n - 1);
      assert Evolves(h.readings(n - 1), h.readings(n));
      QueryKeepsInv(h.readings(n - 1), Machine(h, n - 1), TimeoutAt(h, (n - 1) / 2));
      GrowthKeepsInv(h.readings(n - 1).job, h.readings(n).job, Machine(h, n));
    }
  }

  /** The events follow `from` without gap or repeat. */
  predicate Stretch(log: seq<Event>, from: nat, sent: seq<Event>) {
    sent != [] ==> from + |sent| <= |log| && sent == log[from..from + |sent|]
  }

  /** Whatever the worker does meanwhile, the events yielded are a gapless stretch of the log. A generator that stopped
      at a final status has yielded everything logged by then exactly if the job was still visible to the replay after
      it, or nothing was outstanding. */
  lemma GeneratedIsComplete(h: Course, k: nat)
    requires History(h) && StopsIn(h, k)
    ensures var sent, log := Payloads(Transcript(h, k)), h.readings(2 * k + 1).job.log;
            && Stretch(h.readings(Queries(h, k)).job.log, h.from, sent)
            && (FinalAt(h, k) ==>
                  ((forall i :: h.from <= i < |log| ==> log[i] in sent) <==>
                   h.readings(2 * k + 2).visible || LastSent(h.from, SentBefore(h, k + 1)) >= |log|))
  {
    var n := Queries(h, k);
    var c, j, log := Machine(h, n), h.readings(n).job, h.readings(2 * k + 1).job.log;
    GeneratorIsMachine(h, k);
    MachineKeepsInv(h, n);
    assert Evolves(h.readings(n), h.readings(n + 1));
    assert c.wire + Unsent(c) == c.wire;
    if FinalAt(h, k) {
      assert Evolves(h.readings(2 * k + 1), h.readings(2 * k + 2));
      assert Evolves(h.readings(2 * k + 2), h.readings(2 * k + 3));
      EarlierLog(j, log, c);
    }
  }

  /** `EndedStreamIsComplete` in terms of the log as the status query found it. */
  lemma EarlierLog(j: Job, log: seq<Event>, c: Stream)
    requires Numbered(j.log) && StreamInv(j, c) && c.phase.Ended? && log <= j.log && c.phase.seen.mark == |log|
    ensures (forall i :: c.from <= i < |log| ==> log[i] in c.wire) <==> c.phase.visible || c.phase.seen.before >= |log|
  {
    EndedStreamIsComplete(j, c);
    assert forall i :: 0 <= i < |log| ==> log[i] == j.log[i];
  }
}
