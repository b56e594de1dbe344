/** The whole protocol: one job with its worker, any number of open event streams, and the client that reconnects. */
module SearchJob {
  import opened Connectors
  import opened Jobs
  import opened JobWorker
  import opened EventStream
  import opened JobReplay
  import opened Quorum
  import opened WorkerRuns
  import opened Wrappers

  /** A stream, whether our client opened it, and how many of its frames the browser has dispatched. */
  datatype Link = Link(stream: Stream, mine: bool, dispatched: nat)

  datatype State = State(world: World, links: seq<Link>, client: Client)

  datatype Step =
    | OfWorker(step: WorkerStep)
    | OpenOther(from: nat)                     // somebody else opens a stream, from wherever they like
    | OfStream(link: nat, timeout: bool)       // a stream's generator moves on
    | DropLink(link: nat)                      // its connection breaks
    | OpenMine(succeeds: bool)                 // our client's timer runs out
    | Dispatch(link: nat)                      // the next frame of one of our streams reaches the client
    | DispatchAgain(link: nat, frame: nat)     // a frame reaches it once more
    | SourceError                              // the browser reports our source as broken
    | UserClose

  function Start(plan: seq<string>, now: int, lifetime: nat): State {
    State(Created(plan, now, lifetime), [], Fresh(0))
  }

  /** Dispatching is allowed from any stream our client ever opened, even one it has closed since. */
  predicate Enabled(s: State, step: Step) {
    match step
    case OfStream(k, _) => k < |s.links|
    case DropLink(k) => k < |s.links|
    case OpenMine(_) => s.client.retryArmed
    case Dispatch(k) => k < |s.links| && s.links[k].mine && s.links[k].dispatched < |s.links[k].stream.wire|
    case DispatchAgain(k, i) =>
      k < |s.links| && s.links[k].mine && i < s.links[k].dispatched <= |s.links[k].stream.wire|
    case SourceError => s.client.source.Listening?
    case _ => true
  }

  function Apply(s: State, step: Step): State {
    if !Enabled(s, step) then s
    else
      match step
      case OfWorker(wstep) => s.(world := JobWorker.Apply(s.world, wstep))
      case OpenOther(from) => s.(links := s.links + [Link(Opened(from), false, 0)])
      case OfStream(k, timeout) =>
        var stream := Advance(s.world.job, Visible(s.world), s.links[k].stream, timeout);
        s.(links := s.links[k := s.links[k].(stream := stream)])
      case DropLink(k) => s.(links := s.links[k := s.links[k].(stream := Drop(s.links[k].stream))])
      case OpenMine(succeeds) =>
        var client := Reopened(s.client, succeeds);
        s.(client := client,
           links := if client.source.Listening? then s.links + [Link(Opened(client.source.from), true, 0)] else s.links)
      case Dispatch(k) =>
        s.(client := Handled(s.client, s.links[k].stream.wire[s.links[k].dispatched]),
           links := s.links[k := s.links[k].(dispatched := s.links[k].dispatched + 1)])
      case DispatchAgain(k, i) => s.(client := Handled(s.client, s.links[k].stream.wire[i]))
      case SourceError => s.(client := Errored(s.client))
      case UserClose => s.(client := Closed(s.client))
  }

  /** What the client makes of a frame: it hands on what is new and stops at a terminal event. */
  predicate Takes(before: Client, frame: Event, after: Client) {
    if frame.number <= before.lastSeq then after == before
    else
      && after.lastSeq == frame.number && after.delivered == before.delivered + [frame]
      && (if frame.body.JobDone? || frame.body.JobFailed?
          then after.terminal && after.closed && !after.retryArmed && !after.source.Listening?
          else after == before.(lastSeq := after.lastSeq, delivered := after.delivered))
  }

  /** What the network and the users may do to a state, each in terms of what changes: streams move and break, whoever
      opened them, and of our client's every frame sent may arrive once in order, and again. */
  lemma StepsOfOthers(s: State, step: Step)
    requires ClientInv(s.client)
    requires match step
             case OfStream(k, _) => k < |s.links|
             case DropLink(k) => k < |s.links|
             case OpenMine(_) => s.client.retryArmed
             case Dispatch(k) => k < |s.links| && s.links[k].mine && s.links[k].dispatched < |s.links[k].stream.wire|
             case DispatchAgain(k, i) =>
               k < |s.links| && s.links[k].mine && i < s.links[k].dispatched <= |s.links[k].stream.wire|
             case SourceError => s.client.source.Listening?
             case _ => true
    ensures var s' := Apply(s, step);
            match step
            case OfWorker(_) => s' == s.(world := s'.world)
            case OpenOther(from) => s' == s.(links := s.links + [Link(Stream(from, from, Ready, []), false, 0)])
            case OfStream(k, _) => s' == s.(links := s.links[k := s.links[k].(stream := s'.links[k].stream)])
            case DropLink(k) =>
              var c, c' := s.links[k].stream, s'.links[k].stream;
              && s' == s.(links := s.links[k := s.links[k].(stream := c')])
              && c' == c.(phase := if c.phase.Ended? || c.phase.TimedOut? then c.phase else Phase.Dropped)
            case OpenMine(succeeds) =>
              var c, from := s.client, s.client.lastSeq;
              if !succeeds then s' == s
              else
                s' == State(s.world, s.links + [Link(Stream(from, from, Ready, []), true, 0)],
                            c.(retryArmed := false, source := Listening(from)))
            case Dispatch(k) =>
              var link := s.links[k];
              && s' == State(s.world, s.links[k := link.(dispatched := link.dispatched + 1)], s'.client)
              && Takes(s.client, link.stream.wire[link.dispatched], s'.client)
            case DispatchAgain(k, i) =>
              s' == s.(client := s'.client) && Takes(s.client, s.links[k].stream.wire[i], s'.client)
            case SourceError =>
              s' == s.(client := s.client.(source := Shut, retryArmed := true))
            case UserClose =>
              && s' == s.(client := s'.client) && s'.client.closed && !s'.client.retryArmed
              && !s'.client.source.Listening? && s'.client.delivered == s.client.delivered
              && s'.client.lastSeq == s.client.lastSeq && s'.client.terminal == s.client.terminal
  {
  }

  // ---- The invariant ----

  predicate LinkInv(j: Job, client: Client, link: Link) {
    && StreamInv(j, link.stream)
    && link.dispatched <= |link.stream.wire|
    && (link.mine ==> link.stream.from + link.dispatched <= client.lastSeq)
  }

  predicate LinksInv(j: Job, client: Client, links: seq<Link>) {
    forall k :: 0 <= k < |links| ==> LinkInv(j, client, links[k])
  }

  /** What the client has handed on is the log up to its last number, and it is terminal exactly at the end. */
  predicate InStep(j: Job, client: Client) {
    && ClientInv(client)
    && client.lastSeq <= |j.log| && client.delivered == j.log[..client.lastSeq]
    && (client.terminal <==> client.lastSeq == FullLength(j.plan))
  }

  ghost predicate Inv(s: State) {
    && JobWorker.Inv(s.world)
    && LinksInv(s.world.job, s.client, s.links)
    && InStep(s.world.job, s.client)
  }

  /** A frame of one of our streams is either the next event the client lacks, or one it has had. */
  lemma FrameIsNextOrSeen(s: State, k: nat, i: nat)
    requires Inv(s) && k < |s.links| && s.links[k].mine && i <= s.links[k].dispatched && i < |s.links[k].stream.wire|
    ensures var c, log := s.links[k].stream, s.world.job.log;
            && c.from + i < |log| && c.wire[i] == log[c.from + i] && c.wire[i].number == c.from + i + 1
            && c.wire[i].number <= s.client.lastSeq + 1
  {
    var c, log := s.links[k].stream, s.world.job.log;
    ScriptedIsNumbered(s.world.job.plan, s.world.results, log);
    assert LinkInv(s.world.job, s.client, s.links[k]);
    assert (c.wire + Unsent(c))[i] == c.wire[i];
  }

  lemma HandledKeepsInStep(s: State, i: nat)
    requires Inv(s) && i < |s.world.job.log| && i <= s.client.lastSeq
    ensures InStep(s.world.job, Handled(s.client, s.world.job.log[i]))
  {
    var log := s.world.job.log;
    ScriptedIsNumbered(s.world.job.plan, s.world.results, log);
    OnlyTheEndIsTerminal(s.world.job.plan, s.world.results, log, i);
    assert log[..i + 1] == log[..i] + [log[i]];
  }

  lemma LaterClientKeepsLinks(j: Job, before: Client, after: Client, links: seq<Link>)
    requires LinksInv(j, before, links) && before.lastSeq <= after.lastSeq
    ensures LinksInv(j, after, links)
  {
    forall k | 0 <= k < |links| ensures LinkInv(j, after, links[k]) {
      assert LinkInv(j, before, links[k]);
    }
  }

  lemma LinkUpdateKeepsLinks(j: Job, client: Client, links: seq<Link>, k: nat, link: Link)
    requires LinksInv(j, client, links) && k < |links| && LinkInv(j, client, link)
    ensures LinksInv(j, client, links[k := link])
  {
    var updated := links[k := link];
    forall i | 0 <= i < |updated| ensures LinkInv(j, client, updated[i]) {
      assert i != k ==> LinkInv(j, client, links[i]);
    }
  }

  lemma WorkerStepKeepsInv(s: State, wstep: WorkerStep)
    requires Inv(s)
    ensures Inv(Apply(s, OfWorker(wstep)))
  {
    StepKeepsInv(s.world, wstep);
    StepMovesForward(s.world, wstep);
    var j, j' := s.world.job, JobWorker.Apply(s.world, wstep).job;
    forall k | 0 <= k < |s.links| ensures LinkInv(j', s.client, s.links[k]) {
      assert LinkInv(j, s.client, s.links[k]);
      GrowthKeepsInv(j, j', s.links[k].stream);
    }
    assert j'.log[..s.client.lastSeq] == j.log[..s.client.lastSeq];
  }

  lemma StreamStepKeepsInv(s: State, k: nat, timeout: bool)
    requires Inv(s) && k < |s.links|
    ensures Inv(Apply(s, OfStream(k, timeout))) && Inv(Apply(s, DropLink(k)))
  {
    var j, link := s.world.job, s.links[k];
    ScriptedIsNumbered(j.plan, s.world.results, j.log);
    assert LinkInv(j, s.client, link);
    AdvanceKeepsInv(j, Visible(s.world), link.stream, timeout);
    DropKeepsInv(j, link.stream);
    LinkUpdateKeepsLinks(j, s.client, s.links, k, link.(stream := Advance(j, Visible(s.world), link.stream, timeout)));
    LinkUpdateKeepsLinks(j, s.client, s.links, k, link.(stream := Drop(link.stream)));
  }

  lemma DropKeepsInv(j: Job, c: Stream)
    requires StreamInv(j, c)
    ensures StreamInv(j, Drop(c))
  {
    var n := |c.wire|;
    if n > 0 {
      assert (c.wire + Unsent(c))[..n] == c.wire;
      assert j.log[c.from..c.from + n + |Unsent(c)|][..n] == j.log[c.from..c.from + n];
      assert c.wire + [] == c.wire;
    }
  }

  lemma DispatchKeepsInv(s: State, k: nat)
    requires Inv(s) && Enabled(s, Dispatch(k))
    ensures Inv(Apply(s, Dispatch(k)))
  {
    var j, link := s.world.job, s.links[k];
    FrameIsNextOrSeen(s, k, link.dispatched);
    HandledKeepsInStep(s, link.stream.from + link.dispatched);
    var client := Handled(s.client, link.stream.wire[link.dispatched]);
    LaterClientKeepsLinks(j, s.client, client, s.links);
    assert LinkInv(j, client, link);
    LinkUpdateKeepsLinks(j, client, s.links, k, link.(dispatched := link.dispatched + 1));
  }

  lemma DispatchAgainKeepsInv(s: State, k: nat, i: nat)
    requires Inv(s) && Enabled(s, DispatchAgain(k, i))
    ensures Inv(Apply(s, DispatchAgain(k, i)))
  {
    var link := s.links[k];
    FrameIsNextOrSeen(s, k, i);
    assert LinkInv(s.world.job, s.client, link);
    HandledKeepsInStep(s, link.stream.from + i);
    LaterClientKeepsLinks(s.world.job, s.client, Handled(s.client, link.stream.wire[i]), s.links);
  }

  /** A frame that arrives again is dropped: nothing changes. */
  lemma RepeatedFrameIsDropped(s: State, k: nat, i: nat)
    requires Inv(s) && Enabled(s, DispatchAgain(k, i))
    ensures Apply(s, DispatchAgain(k, i)) == s
  {
    FrameIsNextOrSeen(s, k, i);
    assert LinkInv(s.world.job, s.client, s.links[k]);
  }

  lemma OpenKeepsInv(s: State, from: nat, succeeds: bool)
    requires Inv(s)
    ensures Inv(Apply(s, OpenOther(from))) && Inv(Apply(s, OpenMine(succeeds)))
  {
    OpenedSatisfiesInv(s.world.job, from);
    HandlersKeepInv(s.client, Event(0, JobStarted), succeeds);
    var client := Reopened(s.client, succeeds);
    LaterClientKeepsLinks(s.world.job, s.client, client, s.links);
    if client.source.Listening? {
      OpenedSatisfiesInv(s.world.job, client.source.from);
    }
  }

  lemma ApplyKeepsInv(s: State, step: Step)
    requires Inv(s)
    ensures Inv(Apply(s, step))
  {
    if Enabled(s, step) {
      match step
      case OfWorker(wstep) => WorkerStepKeepsInv(s, wstep);
      case OpenOther(from) => OpenKeepsInv(s, from, true);
      case OfStream(k, timeout) => StreamStepKeepsInv(s, k, timeout);
      case DropLink(k) => StreamStepKeepsInv(s, k, false);
      case OpenMine(succeeds) => OpenKeepsInv(s, 0, succeeds);
      case Dispatch(k) => DispatchKeepsInv(s, k);
      case DispatchAgain(k, i) => DispatchAgainKeepsInv(s, k, i);
      case SourceError => LaterClientKeepsLinks(s.world.job, s.client, Errored(s.client), s.links);
      case UserClose => LaterClientKeepsLinks(s.world.job, s.client, Closed(s.client), s.links);
    }
  }

  // ---- Whole runs ----

  function Run(s: State, steps: seq<Step>): State {
    if steps == [] then s else Apply(Run(s, steps[..|steps| - 1]), steps[|steps| - 1])
  }

  lemma {:induction false} RunKeepsInv(s: State, steps: seq<Step>)
    requires Inv(s)
    ensures Inv(Run(s, steps))
  {
    if steps != [] {
      RunKeepsInv(s, steps[..|steps| - 1]);
      ApplyKeepsInv(Run(s, steps[..|steps| - 1]), steps[|steps| - 1]);
    }
  }

  /** The invariant holds in every reachable state. */
  lemma ReachableSatisfiesInv(plan: seq<string>, now: int, lifetime: nat, steps: seq<Step>)
    requires Controlled(plan)
    ensures Inv(Run(Start(plan, now, lifetime), steps))
  {
    CreatedSatisfiesInv(plan, now, lifetime);
    RunKeepsInv(Start(plan, now, lifetime), steps);
  }

  /** Over every run, with any number of dropped connections, stream timeouts, reconnects and repeated frames, the
      events handed to the callback are exactly the log from 1 to the last number seen: in order, without gap or repeat.
      Only the last can be terminal, and the client is terminal exactly when it has the whole log of a job that is
      done. */
  lemma ClientSeesLogPrefix(plan: seq<string>, now: int, lifetime: nat, steps: seq<Step>)
    requires Controlled(plan)
    ensures var s := Run(Start(plan, now, lifetime), steps);
            var log, client := s.world.job.log, s.client;
            && client.lastSeq <= |log| && client.delivered == log[..client.lastSeq]
            && (forall i :: 0 <= i < |client.delivered| ==> client.delivered[i].number == i + 1)
            && (forall i :: 0 <= i < |client.delivered| - 1 ==> !Terminal(client.delivered[i]))
            && (client.terminal <==> client.delivered != [] && Terminal(client.delivered[|client.delivered| - 1]))
            && (client.terminal ==> s.world.job.status == Done && client.delivered == log)
  {
    ReachableSatisfiesInv(plan, now, lifetime, steps);
    var s := Run(Start(plan, now, lifetime), steps);
    var j, client := s.world.job, s.client;
    ScriptedIsNumbered(j.plan, s.world.results, j.log);
    forall i | 0 <= i < |client.delivered| ensures Terminal(client.delivered[i]) <==> i == FullLength(j.plan) - 1 {
      OnlyTheEndIsTerminal(j.plan, s.world.results, j.log, i);
    }
  }

  /** What a finished stream has delivered, in any reachable state and for anybody who opened it. */
  lemma FinishedStreamsAreComplete(plan: seq<string>, now: int, lifetime: nat, steps: seq<Step>, k: nat)
    requires Controlled(plan)
    ensures var s := Run(Start(plan, now, lifetime), steps);
            k < |s.links| && s.links[k].stream.phase.Ended? ==>
              var log, c := s.world.job.log, s.links[k].stream;
              var seen := c.phase.seen;
              && seen.mark <= |log|
              && ((forall i :: c.from <= i < seen.mark ==> log[i] in c.wire) <==>
                  c.phase.visible || seen.before >= seen.mark)
              && (c.phase.visible && seen.status == Some(Done) ==>
                    && |log| >= 2 * |s.world.job.plan| + 2
                    && forall i :: c.from <= i < 2 * |s.world.job.plan| + 2 ==> log[i] in c.wire)
              && (c.phase.visible && seen.status == Some(Failed) ==>
                    forall i :: c.from <= i < |log| ==> log[i] in c.wire)
  {
    ReachableSatisfiesInv(plan, now, lifetime, steps);
    var s := Run(Start(plan, now, lifetime), steps);
    if k < |s.links| && s.links[k].stream.phase.Ended? {
      assert LinkInv(s.world.job, s.client, s.links[k]);
      ScriptedIsNumbered(s.world.job.plan, s.world.results, s.world.job.log);
      EndedStreamIsComplete(s.world.job, s.links[k].stream);
      if s.links[k].stream.phase.visible {
        FinalStatusMeansDelivered(s.world.job, s.links[k].stream);
      }
    }
  }

  /** No terminal event is logged for a job that is not done, be it failed or abandoned by its worker. So unless the
      user closes it its client never stops: in every reachable state it is listening or about to reconnect. */
  lemma UnfinishedJobKeepsClientWaiting(plan: seq<string>, now: int, lifetime: nat, steps: seq<Step>)
    requires Controlled(plan) && UserClose !in steps
    ensures var s := Run(Start(plan, now, lifetime), steps);
            && (s.client.closed <==> s.client.terminal)
            && (s.world.job.status != Done ==>
                  && (forall e :: e in s.world.job.log ==> !Terminal(e))
                  && !s.client.terminal && (s.client.source.Listening? || s.client.retryArmed))
  {
    ReachableSatisfiesInv(plan, now, lifetime, steps);
    var start := Start(plan, now, lifetime);
    var s := Run(start, steps);
    OnlyUserCloses(start, steps);
    if s.world.job.status != Done {
      forall e | e in s.world.job.log ensures !Terminal(e) {
        var i :| 0 <= i < |s.world.job.log| && s.world.job.log[i] == e;
        OnlyTheEndIsTerminal(s.world.job.plan, s.world.results, s.world.job.log, i);
      }
    }
  }

  lemma {:induction false} OnlyUserCloses(s: State, steps: seq<Step>)
    requires UserClose !in steps && (s.client.closed <==> s.client.terminal)
    ensures Run(s, steps).client.closed <==> Run(s, steps).client.terminal
  {
    if steps != [] {
      OnlyUserCloses(s, steps[..|steps| - 1]);
      assert steps[|steps| - 1] != UserClose;
    }
  }

  // ---- Nothing logged is out of reach ----

  lemma {:induction false} RunConcat(s: State, a: seq<Step>, b: seq<Step>)
    ensures Run(s, a + b) == Run(Run(s, a), b)
    decreases |b|
  {
    if b == [] {
      assert a + b == a;
    } else {
      assert (a + b)[..|a + b| - 1] == a + b[..|b| - 1];
      RunConcat(s, a, b[..|b| - 1]);
    }
  }

  lemma StepDelivers(s: State, step: Step)
    ensures s.client.delivered <= Apply(s, step).client.delivered && Apply(s, step).world.job.plan == s.world.job.plan
  {
  }

  /** What was handed on stays handed on, whatever happens next. */
  lemma {:induction false} DeliveredGrows(s: State, steps: seq<Step>)
    ensures s.client.delivered <= Run(s, steps).client.delivered
    ensures Run(s, steps).world.job.plan == s.world.job.plan
  {
    if steps != [] {
      DeliveredGrows(s, steps[..|steps| - 1]);
      StepDelivers(Run(s, steps[..|steps| - 1]), steps[|steps| - 1]);
    }
  }

  function Repeat(step: Step, m: nat): seq<Step> {
    if m == 0 then [] else Repeat(step, m - 1) + [step]
  }

  lemma RepeatOnce(s: State, step: Step, m: nat)
    requires m > 0
    ensures Run(s, Repeat(step, m)) == Apply(Run(s, Repeat(step, m - 1)), step)
  {
    assert Repeat(step, m)[..|Repeat(step, m)| - 1] == Repeat(step, m - 1);
  }

  function WithStream(s: State, k: nat, c: Stream): State
    requires k < |s.links|
  {
    s.(links := s.links[k := s.links[k].(stream := c)])
  }

  lemma StreamStep(s: State, k: nat, c: Stream)
    requires k < |s.links|
    ensures Apply(WithStream(s, k, c), OfStream(k, false))
            == WithStream(s, k, Advance(s.world.job, Visible(s.world), c, false))
  {
    var link := s.links[k];
    assert s.links[k := link.(stream := c)][k] == link.(stream := c);
    var c' := Advance(s.world.job, Visible(s.world), c, false);
    assert s.links[k := link.(stream := c)][k := link.(stream := c')] == s.links[k := link.(stream := c')];
  }

  lemma StreamSendsOne(s: State, before: State, k: nat, c: Stream, m: nat)
    requires k < |s.links| && HoldsRows(c) && m < |c.phase.rows| && before == WithStream(s, k, Sent(c, m))
    ensures Apply(before, OfStream(k, false)) == WithStream(s, k, Sent(c, m + 1))
  {
    StreamStep(s, k, Sent(c, m));
    SendsNextRow(s.world.job, Visible(s.world), c, m);
  }

  lemma NothingSent(s: State, k: nat, c: Stream)
    requires k < |s.links| && c == s.links[k].stream && HoldsRows(c)
    ensures WithStream(s, k, Sent(c, 0)) == s
  {
    assert Sent(c, 0) == c && s.links[k := s.links[k]] == s.links;
  }

  predicate HasSent(s: State, s': State, k: nat, c: Stream, m: nat) {
    k < |s.links| && c.phase.Draining? && m <= |c.phase.rows| && s' == WithStream(s, k, Sent(c, m))
  }

  lemma StreamSendsOneMore(s: State, k: nat, c: Stream, m: nat)
    requires HoldsRows(c) && m < |c.phase.rows| && HasSent(s, Run(s, Repeat(OfStream(k, false), m)), k, c, m)
    ensures HasSent(s, Run(s, Repeat(OfStream(k, false), m + 1)), k, c, m + 1)
  {
    RepeatOnce(s, OfStream(k, false), m + 1);
    StreamSendsOne(s, Run(s, Repeat(OfStream(k, false), m)), k, c, m);
  }

  /** Stepping a draining stream sends its rows one after the other and touches nothing else. */
  lemma {:induction false} StreamSendsItsRows(s: State, k: nat, c: Stream, m: nat)
    requires k < |s.links| && c == s.links[k].stream && HoldsRows(c) && m <= |c.phase.rows|
    ensures HasSent(s, Run(s, Repeat(OfStream(k, false), m)), k, c, m)
  {
    if m == 0 {
      NothingSent(s, k, c);
    } else {
      StreamSendsItsRows(s, k, c, m - 1);
      StreamSendsOneMore(s, k, c, m - 1);
    }
  }

  /** `m` frames of stream `k` have reached the client, and the world is as it was. */
  predicate Dispatched(s: State, s': State, k: nat, m: nat) {
    && s'.world == s.world && |s'.links| == |s.links| && k < |s.links|
    && s'.links[k] == s.links[k].(dispatched := s.links[k].dispatched + m)
  }

  lemma DispatchOneMore(s: State, before: State, k: nat, m: nat)
    requires Dispatched(s, before, k, m) && s.links[k].mine && s.links[k].dispatched + m < |s.links[k].stream.wire|
    ensures Dispatched(s, Apply(before, Dispatch(k)), k, m + 1)
  {
  }

  lemma {:induction false} FramesReachClient(s: State, k: nat, m: nat)
    requires k < |s.links| && s.links[k].mine && s.links[k].dispatched + m <= |s.links[k].stream.wire|
    ensures Dispatched(s, Run(s, Repeat(Dispatch(k), m)), k, m)
  {
    if m > 0 {
      FramesReachClient(s, k, m - 1);
      RepeatOnce(s, Dispatch(k), m);
      DispatchOneMore(s, Run(s, Repeat(Dispatch(k), m - 1)), k, m - 1);
    }
  }

  /** Dispatching the frames of one of its streams brings the client at least as far as the last of them. */
  lemma DispatchAdvancesClient(s: State, k: nat, m: nat)
    requires Inv(s) && k < |s.links| && s.links[k].mine && s.links[k].dispatched + m <= |s.links[k].stream.wire|
    ensures var s' := Run(s, Repeat(Dispatch(k), m));
            && Dispatched(s, s', k, m)
            && s'.links[k].stream.from + s'.links[k].dispatched <= s'.client.lastSeq
  {
    var s' := Run(s, Repeat(Dispatch(k), m));
    FramesReachClient(s, k, m);
    RunKeepsInv(s, Repeat(Dispatch(k), m));
    assert LinkInv(s'.world.job, s'.client, s'.links[k]);
  }

  /** How many events the client has not seen yet. */
  function Missing(s: State): nat {
    if s.client.lastSeq <= |s.world.job.log| then |s.world.job.log| - s.client.lastSeq else 0
  }

  /** One reconnect, followed through: open a source, let its stream send what the log holds, dispatch it. */
  function CatchUp(s: State): seq<Step> {
    var k, m := |s.links|, Missing(s);
    [OpenMine(true), OfStream(k, false)] + Repeat(OfStream(k, false), m) + Repeat(Dispatch(k), m)
  }

  /** From every state in which the job is visible and the client is waiting to retry, one reconnect suffices:
      afterwards it has the whole log, and is terminal if the job's last event is in it. So whatever connections broke
      before, no logged event is out of the client's reach. */
  lemma ReconnectCatchesUp(s: State)
    requires Inv(s) && Visible(s.world) && s.client.retryArmed
    ensures var s' := Run(s, CatchUp(s));
            && s'.world == s.world && s'.client.delivered == s.world.job.log
            && (s'.client.terminal <==> |s.world.job.log| == FullLength(s.world.job.plan))
  {
    var k, m := |s.links|, Missing(s);
    var first := [OpenMine(true), OfStream(k, false)];
    var send, hand := Repeat(OfStream(k, false), m), Repeat(Dispatch(k), m);
    OpenAndQuery(s);
    SendAll(s, Run(s, first));
    RunConcat(s, first, send);
    RunKeepsInv(s, first + send);
    HandOver(s, Run(s, first + send));
    RunConcat(s, first + send, hand);
  }

  /** The new stream has sent everything the client lacks. */
  predicate Loaded(s: State, s': State) {
    var k := |s.links|;
    && s'.world == s.world && k < |s'.links| && s'.links[k].mine && s'.links[k].dispatched == 0
    && s'.links[k].stream.from == s.client.lastSeq && |s'.links[k].stream.wire| == Missing(s)
  }

  lemma SendAll(s: State, queried: State)
    requires Inv(s) && Queried(s, queried)
    ensures Loaded(s, Run(queried, Repeat(OfStream(|s.links|, false), Missing(s))))
  {
    CursorHoldsRows(s, queried);
    StreamSendsItsRows(queried, |s.links|, queried.links[|s.links|].stream, Missing(s));
  }

  lemma HandOver(s: State, sent: State)
    requires Inv(s) && Inv(sent) && Loaded(s, sent)
    ensures var s' := Run(sent, Repeat(Dispatch(|s.links|), Missing(s)));
            && s'.world == s.world && s'.client.delivered == s.world.job.log
            && (s'.client.terminal <==> |s.world.job.log| == FullLength(s.world.job.plan))
  {
    var k, m := |s.links|, Missing(s);
    DispatchAdvancesClient(sent, k, m);
    RunKeepsInv(sent, Repeat(Dispatch(k), m));
    AtTheEnd(Run(sent, Repeat(Dispatch(k), m)));
  }

  lemma CursorHoldsRows(s: State, queried: State)
    requires Inv(s) && Queried(s, queried)
    ensures HoldsRows(queried.links[|s.links|].stream)
  {
    ScriptedIsNumbered(s.world.job.plan, s.world.results, s.world.job.log);
  }

  lemma AtTheEnd(s: State)
    requires Inv(s) && s.client.lastSeq >= |s.world.job.log|
    ensures s.client.delivered == s.world.job.log
    ensures s.client.terminal <==> |s.world.job.log| == FullLength(s.world.job.plan)
  {
    assert s.world.job.log[..|s.world.job.log|] == s.world.job.log;
  }

  /** A new stream of our client has opened its cursor on the rest of the log. */
  predicate Queried(s: State, s': State) {
    && s'.world == s.world && |s'.links| == |s.links| + 1 && s.client.lastSeq <= |s.world.job.log|
    && var from := s.client.lastSeq;
       s'.links[|s.links|] == Link(Stream(from, from, Draining(s.world.job.log[from..]), []), true, 0)
  }

  lemma OpenAndQuery(s: State)
    requires Inv(s) && Visible(s.world) && s.client.retryArmed
    ensures Queried(s, Run(s, [OpenMine(true), OfStream(|s.links|, false)]))
  {
    var k, from, log := |s.links|, s.client.lastSeq, s.world.job.log;
    var open, query := OpenMine(true), OfStream(k, false);
    RunConcat(s, [open], [query]);
    assert [open] + [query] == [open, query];
    RunOne(s, open);
    RunOne(Run(s, [open]), query);
    ScriptedIsNumbered(s.world.job.plan, s.world.results, log);
    AfterIsSuffix(log, 0, from);
    assert log[0..] == log;
  }

  lemma RunOne(s: State, step: Step)
    ensures Run(s, [step]) == Apply(s, step)
  {
    assert [step][..0] == [];
    assert Run(s, [step][..0]) == s;
  }

  // ---- A finished stream without the outcome ----

  /** The worker's first seven steps, for a job with an empty plan: it is done, with its summary logged. */
  function WorkSteps(): seq<Step> { seq(7, _ => OfWorker(Next(Outcome("", Pending, 0)))) }

  /** A stream polls an empty log before the worker moves and reads the status after it; then the row expires. */
  function UnluckySteps(): seq<Step> {
    [OpenOther(0), OfStream(0, false), OfStream(0, false)] + WorkSteps()
    + [OfStream(0, false), OfWorker(Tick(1)), OfStream(0, false), OfStream(0, false)]
  }

  lemma {:induction false} WorkerStepsMoveWorld(s: State, n: nat)
    ensures Run(s, seq(n, _ => OfWorker(Next(Outcome("", Pending, 0)))))
         == s.(world := JobWorker.Run(s.world, seq(n, _ => Next(Outcome("", Pending, 0)))))
  {
    if n > 0 {
      var o := Outcome("", Pending, 0);
      WorkerStepsMoveWorld(s, n - 1);
      RunOneMore(s, seq(n - 1, _ => OfWorker(Next(o))), OfWorker(Next(o)));
      assert seq(n, _ => OfWorker(Next(o))) == seq(n - 1, _ => OfWorker(Next(o))) + [OfWorker(Next(o))];
      JobWorker.RunOneMore(s.world, seq(n - 1, _ => Next(o)), Next(o));
      assert seq(n, _ => Next(o)) == seq(n - 1, _ => Next(o)) + [Next(o)];
    }
  }

  lemma RunOneMore(s: State, steps: seq<Step>, step: Step)
    ensures Run(s, steps + [step]) == Apply(Run(s, steps), step)
  {
    assert (steps + [step])[..|steps + [step]| - 1] == steps;
  }

  /** One stream, which our client did not open, in this phase, with nothing sent. */
  function Watching(w: World, phase: Phase): State {
    State(w, [Link(Stream(0, 0, phase, []), false, 0)], Fresh(0))
  }

  lemma OpensAndPolls(now: int)
    ensures Run(Start([], now, 0), [OpenOther(0), OfStream(0, false), OfStream(0, false)])
         == Watching(Created([], now, 0), Checking)
  {
    var start, w := Start([], now, 0), Created([], now, 0);
    assert Run(start, []) == start && [] + [OpenOther(0)] == [OpenOther(0)];
    RunOneMore(start, [], OpenOther(0));
    assert Run(start, [OpenOther(0)]) == Watching(w, Ready);
    RunOneMore(start, [OpenOther(0)], OfStream(0, false));
    assert [OpenOther(0)] + [OfStream(0, false)] == [OpenOther(0), OfStream(0, false)];
    assert Run(start, [OpenOther(0), OfStream(0, false)]) == Watching(w, Draining([]));
    RunOneMore(start, [OpenOther(0), OfStream(0, false)], OfStream(0, false));
    assert [OpenOther(0), OfStream(0, false)] + [OfStream(0, false)]
        == [OpenOther(0), OfStream(0, false), OfStream(0, false)];
  }

  lemma PhaseMoves(w: World, phase: Phase, next: Phase)
    requires Advance(w.job, Visible(w), Stream(0, 0, phase, []), false) == Stream(0, 0, next, [])
    ensures Apply(Watching(w, phase), OfStream(0, false)) == Watching(w, next)
  {
  }

  lemma PhasesUntilEnd(w: World, late: World, seen: Sighting)
    requires w.job == late.job && w.job.status == Done && |w.job.log| == 2 && Visible(w) && !Visible(late)
    requires seen == Sighting(Some(Done), 2, 0)
    ensures Apply(Watching(w, Checking), OfStream(0, false)) == Watching(w, FinalReady(seen))
    ensures Apply(Watching(late, FinalReady(seen)), OfStream(0, false))
         == Watching(late, FinalDraining([], seen, false))
    ensures Apply(Watching(late, FinalDraining([], seen, false)), OfStream(0, false))
         == Watching(late, Ended(seen, false))
  {
    PhaseMoves(w, Checking, FinalReady(seen));
    PhaseMoves(late, FinalReady(seen), FinalDraining([], seen, false));
    PhaseMoves(late, FinalDraining([], seen, false), Ended(seen, false));
  }

  lemma RunFour(s: State, a: Step, b: Step, c: Step, d: Step)
    ensures Run(s, [a, b, c, d]) == Apply(Apply(Apply(Apply(s, a), b), c), d)
  {
    assert Run(s, []) == s && [] + [a] == [a] && [a] + [b] == [a, b] && [a, b] + [c] == [a, b, c];
    assert [a, b, c] + [d] == [a, b, c, d];
    RunOneMore(s, [], a);
    RunOneMore(s, [a], b);
    RunOneMore(s, [a, b], c);
    RunOneMore(s, [a, b, c], d);
  }

  lemma ReadsAndExpires(w: World)
    requires w.job.status == Done && |w.job.log| == 2 && Visible(w) && w.job.expiresAt == w.now
    ensures Run(Watching(w, Checking), [OfStream(0, false), OfWorker(Tick(1)), OfStream(0, false), OfStream(0, false)])
         == Watching(w.(now := w.now + 1), Ended(Sighting(Some(Done), 2, 0), false))
  {
    var late, seen := w.(now := w.now + 1), Sighting(Some(Done), 2, 0);
    RunFour(Watching(w, Checking), OfStream(0, false), OfWorker(Tick(1)), OfStream(0, false), OfStream(0, false));
    PhasesUntilEnd(w, late, seen);
    assert Apply(Watching(w, FinalReady(seen)), OfWorker(Tick(1))) == Watching(late, FinalReady(seen));
  }

  /** A stream can end on a final status without a single event although the job is done and two events, the summary
      among them, were logged: the row expires between the status read and the last replay. */
  lemma StreamMissesTheOutcome(now: int)
    ensures var s := Run(Start([], now, 0), UnluckySteps());
            && s.world.job.status == Done && |s.world.job.log| == 2
            && |s.links| == 1 && s.links[0].stream.phase == Ended(Sighting(Some(Done), 2, 0), false)
            && s.links[0].stream.wire == []
  {
    var start, polls := Start([], now, 0), [OpenOther(0), OfStream(0, false), OfStream(0, false)];
    var last := [OfStream(0, false), OfWorker(Tick(1)), OfStream(0, false), OfStream(0, false)];
    OpensAndPolls(now);
    RunConcat(start, polls, WorkSteps());
    WorkerStepsMoveWorld(Watching(Created([], now, 0), Checking), 7);
    var w := EmptyPlanFinishes(now, Outcome("", Pending, 0));
    RunConcat(start, polls + WorkSteps(), last);
    ReadsAndExpires(w);
  }

  // ---- When the client stops ----

  /** The client, left alone, can still come to its end. */
  ghost predicate CanStop(s: State) {
    exists more :: UserClose !in more && Run(s, more).client.terminal
  }

  lemma {:induction false} StoppedWorkerFreezesJob(s: State, steps: seq<Step>)
    requires Inv(s) && s.world.pc == Stopped
    ensures Run(s, steps).world.job == s.world.job && Run(s, steps).world.pc == Stopped
  {
    if steps != [] {
      var before, step := Run(s, steps[..|steps| - 1]), steps[|steps| - 1];
      StoppedWorkerFreezesJob(s, steps[..|steps| - 1]);
      RunKeepsInv(s, steps[..|steps| - 1]);
      if step.OfWorker? {
        StepMovesForward(before.world, step.step);
      }
    }
  }

  lemma {:induction false} RepeatHasOnly(step: Step, m: nat)
    ensures forall other :: other in Repeat(step, m) ==> other == step
  {
    if m > 0 {
      RepeatHasOnly(step, m - 1);
    }
  }

  lemma CatchUpLeavesItOpen(s: State)
    ensures UserClose !in CatchUp(s)
  {
    RepeatHasOnly(OfStream(|s.links|, false), Missing(s));
    RepeatHasOnly(Dispatch(|s.links|), Missing(s));
  }

  /** With the whole log there and visible, reconnecting once ends the client. */
  lemma FullLogStops(s: State)
    requires Inv(s) && Visible(s.world) && |s.world.job.log| == FullLength(s.world.job.plan)
    requires s.client.closed ==> s.client.terminal
    ensures CanStop(s)
  {
    if s.client.terminal {
      assert UserClose !in [] && Run(s, []) == s;
    } else if s.client.retryArmed {
      ReconnectCatchesUp(s);
      CatchUpLeavesItOpen(s);
    } else {
      var broken := Apply(s, SourceError);
      ApplyKeepsInv(s, SourceError);
      ReconnectCatchesUp(broken);
      CatchUpLeavesItOpen(broken);
      RunOne(s, SourceError);
      RunConcat(s, [SourceError], CatchUp(broken));
      assert UserClose !in [SourceError] + CatchUp(broken);
    }
  }

  /** Once the worker has stopped and while the job is visible, a client that the user has not closed can come to its
      end exactly if the closing event was logged. So it waits for ever not only for a job that failed or was abandoned,
      but also for one that is done and whose worker stopped before logging the end. */
  lemma ClientCanStopIff(s: State)
    requires Inv(s) && s.world.pc == Stopped && Visible(s.world) && (s.client.closed ==> s.client.terminal)
    ensures CanStop(s) <==> |s.world.job.log| == FullLength(s.world.job.plan)
  {
    if CanStop(s) {
      var more :| UserClose !in more && Run(s, more).client.terminal;
      RunKeepsInv(s, more);
      StoppedWorkerFreezesJob(s, more);
    }
    if |s.world.job.log| == FullLength(s.world.job.plan) {
      FullLogStops(s);
    }
  }

  /** Seven steps of the worker and its end, right after the job was marked done. */
  function AbandonedWhenDone(): seq<Step> { WorkSteps() + [OfWorker(Vanish)] }

  /** A job that is done, its summary logged, and a client that can never stop. */
  lemma DoneJobKeepsClientWaiting(now: int)
    ensures var s := Run(Start([], now, 0), AbandonedWhenDone());
            && s.world.job.status == Done && |s.world.job.log| == 2 && Visible(s.world)
            && s.client == Fresh(0) && !CanStop(s)
  {
    var start, o := Start([], now, 0), Outcome("", Pending, 0);
    var w := EmptyPlanFinishes(now, o);
    WorkerStepsMoveWorld(start, 7);
    RunOneMore(start, WorkSteps(), OfWorker(Vanish));
    ReachableSatisfiesInv([], now, 0, AbandonedWhenDone());
    ClientCanStopIff(Run(start, AbandonedWhenDone()));
  }
}
