/** When the generator stops, and where its heartbeats come. */
module GeneratorFrames {
  import opened EventStream
  import opened Jobs
  import opened SseGenerator
  import opened StreamRun
  import opened Wrappers

  /** The status query of round `i` finds the job neither gone nor done nor failed. */
  predicate FindsItUnfinished(h: Course, i: nat) {
    var r := h.readings(2 * i + 1);
    r.visible && (r.job.status == Queued || r.job.status == Status.Running)
  }

  /** The last round is the first one that finds the job finished or gone, or three minutes gone by. */
  lemma StopsWhen(h: Course, k: nat)
    ensures StopsIn(h, k) <==>
              && (forall i :: 0 <= i < k ==> FindsItUnfinished(h, i) && h.clock(i) < h.start + 180000)
              && !(FindsItUnfinished(h, k) && h.clock(k) < h.start + 180000)
    ensures FinalAt(h, k) <==> !FindsItUnfinished(h, k)
  {
    forall i | 0 <= i <= k
      ensures FinalAt(h, i) <==> !FindsItUnfinished(h, i)
      ensures TimeoutAt(h, i) <==> !(h.clock(i) < h.start + 180000)
    {
    }
  }

  /** The clock at the last beat before round `n`, or at the start. */
  lemma {:induction false} LastBeatSince(h: Course, n: nat, j: nat)
    requires j <= n && forall m :: j <= m < n ==> Beat(h, m) == []
    ensures LastBeat(h, n) == LastBeat(h, j)
    decreases n - j
  {
    if j < n {
      RoundAddsUp(h, n - 1);
      LastBeatSince(h, n - 1, j);
    }
  }

  /** A round beats once, and exactly if the last beat, or the start if there was none, is 15 seconds ago. */
  lemma BeatsEvery15Seconds(h: Course, i: nat)
    ensures Beat(h, i) == [] || Beat(h, i) == [Heartbeat]
    ensures (forall j :: 0 <= j < i ==> Beat(h, j) == []) ==> (Beat(h, i) != [] <==> h.clock(i) - h.start >= 15000)
    ensures forall j :: 0 <= j < i && Beat(h, j) != [] && (forall m :: j < m < i ==> Beat(h, m) == []) ==>
              (Beat(h, i) != [] <==> h.clock(i) - h.clock(j) >= 15000)
  {
    if forall j :: 0 <= j < i ==> Beat(h, j) == [] {
      LastBeatSince(h, i, 0);
    }
    forall j | 0 <= j < i && Beat(h, j) != [] && (forall m :: j < m < i ==> Beat(h, m) == [])
      ensures Beat(h, i) != [] <==> h.clock(i) - h.clock(j) >= 15000
    {
      RoundAddsUp(h, j);
      LastBeatSince(h, i, j + 1);
    }
  }

  function Beats(frames: seq<Frame>): nat {
    if frames == [] then 0
    else Beats(frames[..|frames| - 1]) + if frames[|frames| - 1].Heartbeat? then 1 else 0
  }

  lemma {:induction false} BeatsConcat(a: seq<Frame>, b: seq<Frame>)
    ensures Beats(a + b) == Beats(a) + Beats(b)
    decreases |b|
  {
    if b == [] {
      assert a + b == a;
    } else {
      assert (a + b)[..|a + b| - 1] == a + b[..|b| - 1];
      BeatsConcat(a, b[..|b| - 1]);
    }
  }

  lemma {:induction false} NoBeatInRows(events: seq<Event>)
    ensures Beats(Frames(events)) == 0
  {
    if events != [] {
      assert Frames(events)[..|events| - 1] == Frames(events[..|events| - 1]);
      NoBeatInRows(events[..|events| - 1]);
    }
  }

  /** How many of the first `n` rounds beat. */
  function BeatingRounds(h: Course, n: nat): nat {
    if n == 0 then 0 else BeatingRounds(h, n - 1) + if Beat(h, n - 1) != [] then 1 else 0
  }

  predicate BeatsFit(h: Course, n: nat) { Beats(FramesBefore(h, n)) == BeatingRounds(h, n) }

  lemma {:induction false} BeatsOfRounds(h: Course, n: nat)
    ensures BeatsFit(h, n)
  {
    if n > 0 {
      BeatsOfRounds(h, n - 1);
      BeatsOfRound(h, n - 1, n);
    } else {
      NoBeatInRows([]);
    }
  }

  lemma BeatsOfRound(h: Course, i: nat, n: nat)
    requires BeatsFit(h, i) && n == i + 1
    ensures BeatsFit(h, n)
  {
    RoundAddsUp(h, i);
    BeatsEvery15Seconds(h, i);
    BeatsOfOneRound(FramesBefore(h, i), Replay(h, 2 * i, SentBefore(h, i)), Beat(h, i));
  }

  lemma BeatsOfOneRound(before: seq<Frame>, rows: seq<Event>, tail: seq<Frame>)
    ensures Beats(before + Frames(rows) + tail) == Beats(before) + Beats(tail)
    ensures |tail| == 1 ==> Beats(tail) == if tail[0].Heartbeat? then 1 else 0
  {
    NoBeatInRows(rows);
    BeatsConcat(before, Frames(rows));
    BeatsConcat(before + Frames(rows), tail);
  }

  lemma {:induction false} RoundsAreInside(h: Course, i: nat, n: nat)
    requires i <= n
    ensures FramesBefore(h, i) <= FramesBefore(h, n)
    decreases n - i
  {
    if i < n {
      RoundsAreInside(h, i, n - 1);
      RoundAddsUp(h, n - 1);
    }
  }

  /** The `p`-th frame is the beat of round `i`: the events before it are those of the rounds up to this one. */
  ghost predicate BeatsAt(h: Course, frames: seq<Frame>, i: nat, p: nat) {
    p < |frames| && frames[p] == Heartbeat && Payloads(frames[..p]) == SentBefore(h, i + 1)
  }

  lemma EventsInto(h: Course, i: nat)
    ensures Payloads(FramesInto(h, i)) == SentBefore(h, i + 1)
  {
    EventsOfRounds(h, i);
    RoundAddsUp(h, i);
    EventsAdd(FramesBefore(h, i), SentBefore(h, i), Replay(h, 2 * i, SentBefore(h, i)), []);
    assert FramesInto(h, i) + [] == FramesInto(h, i);
  }

  /** Whether round `i` runs to its beat if round `k` is the last; a final status ends a round before it. */
  predicate MayBeat(h: Course, k: nat, i: nat) { i < k || (i == k && !FinalAt(h, k)) }

  lemma IntoIsInside(h: Course, k: nat, i: nat)
    requires MayBeat(h, k, i)
    ensures FramesInto(h, i) + Beat(h, i) <= Transcript(h, k)
  {
    RoundAddsUp(h, i);
    if i < k {
      RoundsAreInside(h, i + 1, k);
    }
  }

  /** Every beat due is in the transcript, right behind the events of its round, and there is no other. */
  lemma BeatsOfTranscript(h: Course, k: nat, i: nat)
    requires StopsIn(h, k)
    ensures Beats(Transcript(h, k)) == BeatingRounds(h, if FinalAt(h, k) then k else k + 1)
    ensures MayBeat(h, k, i) && Beat(h, i) != [] ==> BeatsAt(h, Transcript(h, k), i, |FramesInto(h, i)|)
  {
    BeatsOfRounds(h, k);
    BeatsOfRounds(h, k + 1);
    RoundAddsUp(h, k);
    LastRoundBeats(FramesInto(h, k), Replay(h, 2 * k + 2, SentBefore(h, k + 1)), Beat(h, k));
    BeatsOfOneRound(FramesBefore(h, k), Replay(h, 2 * k, SentBefore(h, k)), []);
    assert FramesInto(h, k) + [] == FramesInto(h, k);
    if MayBeat(h, k, i) && Beat(h, i) != [] {
      BeatsEvery15Seconds(h, i);
      IntoIsInside(h, k, i);
      EventsInto(h, i);
      BeatBehind(FramesInto(h, i), Transcript(h, k));
    }
  }

  lemma LastRoundBeats(into: seq<Frame>, rows: seq<Event>, beat: seq<Frame>)
    ensures Beats(into + Frames(rows)) == Beats(into)
    ensures Beats(into + beat + [StreamTimeout]) == Beats(into + beat)
  {
    NoBeatInRows(rows);
    BeatsConcat(into, Frames(rows));
    BeatsConcat(into + beat, [StreamTimeout]);
  }

  lemma BeatBehind(into: seq<Frame>, frames: seq<Frame>)
    requires into + [Heartbeat] <= frames
    ensures |into| < |frames| && frames[|into|] == Heartbeat && frames[..|into|] == into
  {
    assert frames[|into|] == (into + [Heartbeat])[|into|];
    assert frames[..|into|] == (into + [Heartbeat])[..|into|];
  }
}
