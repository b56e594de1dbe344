/** The background worker of a search job. Each step is one interaction with the database or a connector; between steps
    the worker can fail or be cancelled, the clock can pass the job's expiry, and the purge can remove the row. */
module JobWorker {
  import opened Connectors
  import opened Jobs
  import opened Quorum
  import opened Text
  import opened Wrappers

  datatype Stage = AtStart | AtConnectorStart(i: nat) | AtConnectorResult(i: nat) | AtSummary | AtEnd

  /** `Emitting` has two steps: looking the job up and checking the payload, then the insert. `Failing` is about to mark
      the job failed; `Stopped` will not touch the database again. */
  datatype Pc =
    | Fetching
    | MarkingRunning
    | Emitting(stage: Stage, admitted: bool)
    | RunningConnector(i: nat)
    | MarkingDone
    | Failing
    | Stopped

  /** `begun` is when the worker started. */
  datatype World = World(job: Job, now: int, begun: int, purged: bool, pc: Pc, number: nat, results: seq<Outcome>)

  /** The row is there and its expiry lies ahead; every query but the insert asks for this. */
  predicate Visible(w: World) { !w.purged && Live(w.job, w.now) }

  function BodyFor(stage: Stage, plan: seq<string>, results: seq<Outcome>): Body
    requires (stage.AtConnectorStart? ==> stage.i < |plan|) && (stage.AtConnectorResult? ==> stage.i < |results|)
  {
    match stage
    case AtStart => JobStarted
    case AtConnectorStart(i) => ConnectorStarted(plan[i])
    case AtConnectorResult(i) => ConnectorResult(results[i])
    case AtSummary => Body.Summary(Decide(results))
    case AtEnd => JobDone(Decide(results))
  }

  function NextPc(stage: Stage, plan: seq<string>): Pc {
    match stage
    case AtStart => if plan == [] then Emitting(AtSummary, false) else Emitting(AtConnectorStart(0), false)
    case AtConnectorStart(i) => RunningConnector(i)
    case AtConnectorResult(i) =>
      if i + 1 < |plan| then Emitting(AtConnectorStart(i + 1), false) else Emitting(AtSummary, false)
    case AtSummary => MarkingDone
    case AtEnd => Stopped
  }

  predicate StageInRange(w: World) {
    w.pc.Emitting? ==>
      && (w.pc.stage.AtConnectorStart? ==> w.pc.stage.i < |w.job.plan|)
      && (w.pc.stage.AtConnectorResult? ==> w.pc.stage.i < |w.results|)
  }

  /** Taking an answer of the store, or failing if it refused. */
  function Settle(w: World, answer: Option<Job>, next: Pc): World {
    if answer.Some? then w.(job := answer.value, pc := next) else w.(pc := Failing)
  }

  function Closing(w: World): Option<Job> {
    MarkDone(w.job, Decide(w.results).confidence, FirstOccurrences(w.results), w.now - w.begun, w.now)
  }

  /** The worker's next step; `outcome` is what a running connector returns, or the error that stands in for it. */
  function Proceed(w: World, outcome: Outcome): World
    requires StageInRange(w)
  {
    match w.pc
    case Fetching => if Visible(w) then w.(pc := MarkingRunning) else w.(pc := Failing)
    case MarkingRunning =>
      Settle(w, if w.purged then None else MarkRunning(w.job, w.now), Emitting(AtStart, false))
    case Emitting(stage, admitted) =>
      var body := BodyFor(stage, w.job.plan, w.results);
      if !admitted then
        if Visible(w) && Admissible(w.job.plan, body) && (stage.AtSummary? ==> Known(w.results))
        then w.(pc := Emitting(stage, true)) else w.(pc := Failing)
      else
        Settle(w.(number := w.number + 1),
               if w.purged then None else Insert(w.job, Event(w.number + 1, Sanitized(body))),
               NextPc(stage, w.job.plan))
    case RunningConnector(i) => w.(results := w.results + [outcome], pc := Emitting(AtConnectorResult(i), false))
    case MarkingDone => Settle(w, if w.purged then None else Closing(w), Emitting(AtEnd, false))
    case Failing =>
      var marked := if w.purged then None else MarkFailed(w.job, w.now);
      w.(job := if marked.Some? then marked.value else w.job, pc := Stopped)
    case Stopped => w
  }

  datatype WorkerStep =
    | Next(outcome: Outcome)
    | Fault                    // a cancellation, or an exception the worker handles, at the current await
    | Vanish                   // an exception it does not handle, or the process is gone
    | Tick(seconds: nat)
    | Purge

  function Apply(w: World, step: WorkerStep): World {
    match step
    case Next(outcome) => if StageInRange(w) then Proceed(w, outcome) else w
    case Fault => if w.pc == Stopped then w else w.(pc := Failing)
    case Vanish => w.(pc := Stopped)
    case Tick(seconds) => w.(now := w.now + seconds)
    case Purge => if w.job.expiresAt < w.now then w.(purged := true) else w
  }

  function Created(plan: seq<string>, now: int, lifetime: nat): World {
    World(Job(plan, Queued, now + lifetime, []), now, now, false, Fetching, 0, [])
  }

  // ---- The invariant ----

  function Position(stage: Stage, plan: seq<string>): nat {
    match stage
    case AtStart => 0
    case AtConnectorStart(i) => 2 * i + 1
    case AtConnectorResult(i) => 2 * i + 2
    case AtSummary => 2 * |plan| + 1
    case AtEnd => 2 * |plan| + 2
  }

  /** Where the worker stands, how far the log is and what the status is go together. */
  predicate Synchronized(w: World) {
    var k, n := |w.job.plan|, |w.job.log|;
    match w.pc
    case Fetching => w.job.status == Queued && n == |w.results| == 0
    case MarkingRunning => w.job.status == Queued && n == |w.results| == 0
    case Emitting(stage, admitted) =>
      && n == Position(stage, w.job.plan)
      && w.job.status == (if stage.AtEnd? then Done else Status.Running)
      && (match stage
          case AtStart => |w.results| == 0
          case AtConnectorStart(i) => i < k && |w.results| == i
          case AtConnectorResult(i) => i < k && |w.results| == i + 1
          case _ => |w.results| == k)
      && (admitted ==> Admissible(w.job.plan, BodyFor(stage, w.job.plan, w.results)))
    case RunningConnector(i) => i < k && n == 2 * i + 2 && |w.results| == i && w.job.status == Status.Running
    case MarkingDone => n == 2 * k + 2 && |w.results| == k && w.job.status == Status.Running
    case Failing => w.job.status != Failed
    case Stopped => true
  }

  predicate StatusFitsLog(j: Job) {
    var k, n := |j.plan|, |j.log|;
    match j.status
    case Queued => n == 0
    case Running => n <= 2 * k + 2
    case Done => 2 * k + 2 <= n <= 2 * k + 3
    case Failed => n <= 2 * k + 2
  }

  /** Once the aggregator has accepted the results, they are all there is. */
  predicate Accepted(w: World) {
    |w.job.log| >= 2 * |w.job.plan| + 2 || w.pc == Emitting(AtSummary, true) ==> Known(w.results)
  }

  predicate Active(pc: Pc) { pc != Failing && pc != Stopped }

  /** Every logged event has passed the payload check. */
  ghost predicate Checked(plan: seq<string>, log: seq<Event>) {
    forall e :: e in log ==> Admissible(plan, e.body)
  }

  lemma CheckedAppend(plan: seq<string>, log: seq<Event>, e: Event)
    requires Checked(plan, log) && Admissible(plan, e.body)
    ensures Checked(plan, log + [e])
  {
  }

  ghost predicate Inv(w: World) {
    && Scripted(w.job.plan, w.results, w.job.log)
    && StatusFitsLog(w.job)
    && Synchronized(w) && Accepted(w) && w.begun <= w.now
    && (Active(w.pc) ==> w.number == |w.job.log|)
    && Checked(w.job.plan, w.job.log) && Controlled(w.job.plan)
    && (w.purged ==> w.job.expiresAt < w.now)
  }

  /** A number that continues the log is new. */
  lemma NextNumberIsNew(j: Job, results: seq<Outcome>, body: Body)
    requires Scripted(j.plan, results, j.log)
    ensures var e := Event(|j.log| + 1, body); Insert(j, e) == Some(j.(log := j.log + [e]))
  {
    ScriptedIsNumbered(j.plan, results, j.log);
    forall logged | logged in j.log ensures logged.number != |j.log| + 1 {
      var i :| 0 <= i < |j.log| && j.log[i] == logged;
    }
  }

  /** What a stage logs is what the script has at its position. */
  lemma StageFollowsScript(stage: Stage, plan: seq<string>, results: seq<Outcome>)
    requires (stage.AtConnectorStart? ==> stage.i < |plan|) && (stage.AtConnectorResult? ==> stage.i < |results|)
    requires stage.AtConnectorResult? ==> stage.i < |plan|
    ensures var n := Position(stage, plan);
            && n <= 2 * |plan| + 2 && (0 < n <= 2 * |plan| && n % 2 == 0 ==> n / 2 <= |results|)
            && Sanitized(BodyFor(stage, plan, results)) == Script(plan, results, n)
  {
  }

  lemma InsertKeepsInv(w: World, stage: Stage)
    requires Inv(w) && w.pc == Emitting(stage, true) && StageInRange(w)
    ensures var e := Event(w.number + 1, Sanitized(BodyFor(stage, w.job.plan, w.results)));
            && Insert(w.job, e) == Some(w.job.(log := w.job.log + [e]))
            && Scripted(w.job.plan, w.results, w.job.log + [e])
  {
    var body := Sanitized(BodyFor(stage, w.job.plan, w.results));
    NextNumberIsNew(w.job, w.results, body);
    StageFollowsScript(stage, w.job.plan, w.results);
    ScriptedAppend(w.job.plan, w.results, w.job.log, Event(w.number + 1, body));
  }

  lemma SanitizedIsAdmissible(plan: seq<string>, body: Body)
    requires Admissible(plan, body)
    ensures Admissible(plan, Sanitized(body))
  {
    match body
    case ConnectorStarted(connector) =>
      TrimIsFixedIffUnpadded(connector);
      TrimIsNoLonger(connector);
    case ConnectorResult(outcome) =>
      TrimIsFixedIffUnpadded(outcome.connector);
      TrimIsNoLonger(outcome.connector);
    case _ =>
  }

  predicate AllUnpadded(results: seq<Outcome>) {
    forall r :: r in results ==> Unpadded(r.connector)
  }

  /** By the time of the summary every result has passed the payload check, which looks at trimmed names. So the
      aggregator, which looks at the names themselves, refuses the batch exactly if one of them is padded. */
  lemma KnownIffUnpadded(w: World)
    requires Inv(w) && |w.results| == |w.job.plan| && |w.job.log| >= 2 * |w.job.plan| + 1
    ensures Known(w.results) <==> AllUnpadded(w.results)
  {
    forall r | r in w.results ensures r.connector in ALLOWED_CONNECTOR_IDS <==> Unpadded(r.connector) {
      var i :| 0 <= i < |w.results| && w.results[i] == r;
      LoggedResultIsAdmissible(w.job.plan, w.results, w.job.log, i);
      RegisteredIffUnpadded(r.connector);
    }
  }

  lemma RegisteredIffUnpadded(name: string)
    requires Trim(Trim(name)) in ALLOWED_CONNECTOR_IDS
    ensures name in ALLOWED_CONNECTOR_IDS <==> Unpadded(name)
  {
    TrimIsFixedIffUnpadded(name);
    if name in ALLOWED_CONNECTOR_IDS {
      RegisteredNamesAreUnpadded(name);
    }
  }

  function TrimmedOutcomes(results: seq<Outcome>): seq<Outcome> {
    seq(|results|, i requires 0 <= i < |results| => TrimmedOutcome(results[i]))
  }

  lemma KnownAreTrimmed(results: seq<Outcome>)
    requires Known(results)
    ensures TrimmedOutcomes(results) == results
  {
    forall i | 0 <= i < |results| ensures TrimmedOutcome(results[i]) == results[i] {
      assert results[i] in results;
      RegisteredNamesAreUnpadded(results[i].connector);
    }
  }

  lemma LoggedResultIsAdmissible(plan: seq<string>, results: seq<Outcome>, log: seq<Event>, i: nat)
    requires Scripted(plan, results, log) && Checked(plan, log)
    requires |log| >= 2 * |plan| + 1 && i < |plan| == |results|
    ensures Admissible(plan, ConnectorResult(TrimmedOutcome(results[i])))
  {
    assert ScriptedAt(plan, results, log, 2 * i + 2);
    assert log[2 * i + 2] in log;
  }

  lemma LoggedResultIsPlanned(w: World, i: nat)
    requires Inv(w) && |w.job.log| >= 2 * |w.job.plan| + 1 && Known(w.results) && i < |w.job.plan| == |w.results|
    ensures w.results[i].connector in w.job.plan && 0 <= w.results[i].score <= 100
  {
    LoggedResultIsAdmissible(w.job.plan, w.results, w.job.log, i);
    KnownAreTrimmed(w.results);
    assert TrimmedOutcomes(w.results)[i] == w.results[i];
    TrimIsFixedIffUnpadded(w.results[i].connector);
  }

  lemma EmitKeepsInv(w: World, stage: Stage)
    requires Inv(w) && w.pc == Emitting(stage, true) && StageInRange(w)
    ensures Inv(Proceed(w, Outcome("", Pending, 0)))
  {
    InsertKeepsInv(w, stage);
    var w' := Proceed(w, Outcome("", Pending, 0));
    var e := Event(w.number + 1, Sanitized(BodyFor(stage, w.job.plan, w.results)));
    SanitizedIsAdmissible(w.job.plan, BodyFor(stage, w.job.plan, w.results));
    CheckedAppend(w.job.plan, w.job.log, e);
  }

  lemma CheckKeepsInv(w: World, stage: Stage)
    requires Inv(w) && w.pc == Emitting(stage, false) && StageInRange(w)
    ensures Inv(Proceed(w, Outcome("", Pending, 0)))
  {
  }

  lemma ReplyKeepsInv(w: World, i: nat, outcome: Outcome)
    requires Inv(w) && w.pc == RunningConnector(i)
    ensures Inv(Proceed(w, outcome))
  {
    ScriptedMoreResults(w.job.plan, w.results, w.job.log, outcome);
  }

  lemma MarkKeepsInv(w: World, outcome: Outcome)
    requires Inv(w) && !w.pc.Emitting? && !w.pc.RunningConnector?
    ensures Inv(Proceed(w, outcome))
  {
  }

  lemma ProceedKeepsInv(w: World, outcome: Outcome)
    requires Inv(w)
    ensures StageInRange(w) && Inv(Proceed(w, outcome))
  {
    match w.pc
    case Emitting(stage, true) => EmitKeepsInv(w, stage);
    case Emitting(stage, false) => CheckKeepsInv(w, stage);
    case RunningConnector(i) => ReplyKeepsInv(w, i, outcome);
    case _ => MarkKeepsInv(w, outcome);
  }

  lemma StepKeepsInv(w: World, step: WorkerStep)
    requires Inv(w)
    ensures Inv(Apply(w, step))
  {
    if step.Next? {
      ProceedKeepsInv(w, step.outcome);
    } else {
      InterruptionKeepsInv(w, step);
    }
  }

  lemma InterruptionKeepsInv(w: World, step: WorkerStep)
    requires Inv(w) && !step.Next?
    ensures Inv(Apply(w, step))
  {
  }

  lemma CreatedSatisfiesInv(plan: seq<string>, now: int, lifetime: nat)
    requires Controlled(plan)
    ensures Inv(Created(plan, now, lifetime))
  {
  }

  lemma PlannedNamesAreAdmissible(plan: seq<string>, connector: string)
    requires connector in plan && connector in ALLOWED_CONNECTOR_IDS
    ensures Planned(plan, connector)
  {
    RegisteredNamesAreUnpadded(connector);
    assert |connector| <= MAX_STRING;
  }

  lemma KnownNamesAreRegistered(results: seq<Outcome>)
    requires Known(results)
    ensures Registered(FirstOccurrences(results))
  {
    FirstOccurrencesAreTheNames(results);
    forall name | name in FirstOccurrences(results) ensures Trim(name) in ALLOWED_CONNECTOR_IDS {
      assert name in Names(results);
      RegisteredNamesAreUnpadded(name);
    }
  }

  /** The verdict is always fit to be stored. */
  lemma ClosingSucceeds(w: World)
    requires Inv(w) && Visible(w) && w.pc == MarkingDone
    ensures Closing(w).Some?
  {
    LikelyIffSomeFinderWithoutQuorum(w.results);
    KnownNamesAreRegistered(w.results);
  }

  /** The worker has no failure of its own making: while the row is visible, a step fails exactly if a connector came
      back under a name that is not planned, or with a score out of range, or if the batch is complete and a planned
      name came back with blanks around it. */
  lemma OnlyForeignResultsFail(w: World, outcome: Outcome)
    requires Inv(w) && Visible(w) && Active(w.pc)
    ensures StageInRange(w)
    ensures Proceed(w, outcome).pc == Failing <==>
              || (w.pc.Emitting? && w.pc.stage.AtConnectorResult? && !w.pc.admitted
                  && !Admissible(w.job.plan, ConnectorResult(w.results[w.pc.stage.i])))
              || (w.pc == Emitting(AtSummary, false) && !AllUnpadded(w.results))
  {
    match w.pc
    case Emitting(stage, true) => InsertKeepsInv(w, stage);
    case Emitting(stage, false) => CheckFailsIff(w, stage);
    case MarkingDone => ClosingSucceeds(w);
    case _ =>
  }

  lemma CheckFailsIff(w: World, stage: Stage)
    requires Inv(w) && Visible(w) && w.pc == Emitting(stage, false)
    ensures StageInRange(w)
    ensures Proceed(w, Outcome("", Pending, 0)).pc == Failing <==>
              || (stage.AtConnectorResult? && !Admissible(w.job.plan, ConnectorResult(w.results[stage.i])))
              || (stage.AtSummary? && !AllUnpadded(w.results))
  {
    LikelyIffSomeFinderWithoutQuorum(w.results);
    match stage
    case AtConnectorStart(i) => PlannedNamesAreAdmissible(w.job.plan, w.job.plan[i]);
    case AtSummary => KnownIffUnpadded(w);
    case _ =>
  }

  // ---- Whole runs ----

  /** `w'` comes from `w` by worker steps, the clock and the purge. */
  function Run(w: World, steps: seq<WorkerStep>): World {
    if steps == [] then w else Apply(Run(w, steps[..|steps| - 1]), steps[|steps| - 1])
  }

  lemma {:induction false} RunKeepsInv(w: World, steps: seq<WorkerStep>)
    requires Inv(w)
    ensures Inv(Run(w, steps)) && Run(w, steps).job.plan == w.job.plan
  {
    if steps != [] {
      RunKeepsInv(w, steps[..|steps| - 1]);
      StepKeepsInv(Run(w, steps[..|steps| - 1]), steps[|steps| - 1]);
      StepMovesForward(Run(w, steps[..|steps| - 1]), steps[|steps| - 1]);
    }
  }

  /** The one worker of a job, interrupted wherever it may be: the log is a prefix of the script for the results it has
      collected, numbered from 1 without gap or repeat; a job is done only with the summary logged, and its last event
      is logged only for a job that is done. */
  lemma LogFollowsScript(plan: seq<string>, now: int, lifetime: nat, steps: seq<WorkerStep>)
    requires Controlled(plan)
    ensures var w := Run(Created(plan, now, lifetime), steps);
            && w.job.plan == plan && TellsItAll(plan, w.results, w.job.log)
            && (w.job.status == Done ==> |w.job.log| in {2 * |plan| + 2, 2 * |plan| + 3})
            && (|w.job.log| == 2 * |plan| + 3 ==> w.job.status == Done)
  {
    CreatedSatisfiesInv(plan, now, lifetime);
    var w := Run(Created(plan, now, lifetime), steps);
    RunKeepsInv(Created(plan, now, lifetime), steps);
    ScriptTellsItAll(w.job.plan, w.results, w.job.log);
  }

  predicate MayFollow(before: Status, after: Status) {
    || before == after
    || (before == Queued && after in {Status.Running, Failed})
    || (before == Status.Running && after in {Done, Failed})
  }

  /** One step moves the status along queued -> running -> done, or to failed from either of the first two; the log only
      grows, by one event, and not at all once the job has failed. */
  lemma StepMovesForward(w: World, step: WorkerStep)
    requires Inv(w)
    ensures var w' := Apply(w, step);
            && w'.job.plan == w.job.plan && MayFollow(w.job.status, w'.job.status)
            && w.job.log <= w'.job.log && |w'.job.log| <= |w.job.log| + 1
            && (w.job.status == Failed ==> w'.job == w.job)
            && (w.pc == Stopped ==> w'.job == w.job && w'.pc == Stopped)
  {
    if step.Next? && w.pc.Emitting? && w.pc.admitted {
      InsertKeepsInv(w, w.pc.stage);
    }
  }

  /** Exactly one kind of step takes a row from queued straight to failed: that of a worker which is about to mark the
      job failed while the row is visible and has not been marked running. */
  lemma QueuedToFailedIff(w: World, step: WorkerStep)
    requires Inv(w)
    ensures w.job.status == Queued && Apply(w, step).job.status == Failed <==>
              w.job.status == Queued && w.pc == Failing && step.Next? && Visible(w)
  {
    StepMovesForward(w, step);
  }

  /** The worker comes to that point exactly from its first two statements, by an exception it handles, or because the
      row is no longer visible; in that case it is too late to mark the job failed as well. */
  lemma FailingWhileQueuedIff(w: World, step: WorkerStep)
    requires Inv(w) && w.pc != Failing && w.pc != Stopped
    ensures var w' := Apply(w, step);
            w'.pc == Failing && w'.job.status == Queued <==>
              w.pc in {Fetching, MarkingRunning} && (step.Fault? || (step.Next? && !Visible(w)))
  {
    StepMovesForward(w, step);
    if step.Next? {
      if w.pc.Emitting? && w.pc.admitted { InsertKeepsInv(w, w.pc.stage); }
    }
  }

  /** Both inputs: an exception at the first statement, and one at the second. */
  lemma JobsFailFromTheQueue(plan: seq<string>, now: int, lifetime: nat, o: Outcome)
    ensures var start := Created(plan, now, lifetime);
            && Run(start, [Fault]).job.status == Queued && Run(start, [Fault, Next(o)]).job.status == Failed
            && Run(start, [Next(o), Fault]).job.status == Queued
            && Run(start, [Next(o), Fault, Next(o)]).job.status == Failed
  {
    var start := Created(plan, now, lifetime);
    assert Run(start, []) == start && [] + [Fault] == [Fault] && [] + [Next(o)] == [Next(o)];
    RunOneMore(start, [], Fault);
    assert [Fault] + [Next(o)] == [Fault, Next(o)];
    RunOneMore(start, [Fault], Next(o));
    RunOneMore(start, [], Next(o));
    assert [Next(o)] + [Fault] == [Next(o), Fault];
    RunOneMore(start, [Next(o)], Fault);
    assert [Next(o), Fault] + [Next(o)] == [Next(o), Fault, Next(o)];
    RunOneMore(start, [Next(o), Fault], Next(o));
  }

  /** Terminal states absorb, over any further run. */
  lemma {:induction false} TerminalStatesAbsorb(w: World, steps: seq<WorkerStep>)
    requires Inv(w)
    ensures w.job.status in {Done, Failed} ==> Run(w, steps).job.status == w.job.status
    ensures w.job.status == Failed ==> Run(w, steps).job.log == w.job.log
    ensures w.job.log <= Run(w, steps).job.log
  {
    if steps != [] {
      TerminalStatesAbsorb(w, steps[..|steps| - 1]);
      RunKeepsInv(w, steps[..|steps| - 1]);
      StepMovesForward(Run(w, steps[..|steps| - 1]), steps[|steps| - 1]);
    }
  }

  /** The results a log reports, in order. */
  function LoggedResults(log: seq<Event>): (results: seq<Outcome>)
    ensures |log| == 1 ==> results == if log[0].body.ConnectorResult? then [log[0].body.outcome] else []
  {
    if log == [] then []
    else
      var before, body := LoggedResults(log[..|log| - 1]), log[|log| - 1].body;
      if body.ConnectorResult? then before + [body.outcome] else before
  }

  lemma {:induction false} LoggedResultsConcat(a: seq<Event>, b: seq<Event>)
    ensures LoggedResults(a + b) == LoggedResults(a) + LoggedResults(b)
    decreases |b|
  {
    if b == [] {
      assert a + b == a;
    } else {
      assert (a + b)[..|a + b| - 1] == a + b[..|b| - 1];
      LoggedResultsConcat(a, b[..|b| - 1]);
    }
  }

  lemma {:induction false} LoggedResultsArePrefix(plan: seq<string>, results: seq<Outcome>, log: seq<Event>)
    requires Scripted(plan, results, log)
    ensures var m := (if |log| <= 2 * |plan| + 1 then if |log| == 0 then 0 else (|log| - 1) / 2 else |plan|);
            m <= |results| && LoggedResults(log) == TrimmedOutcomes(results[..m])
  {
    if log != [] {
      var n := |log| - 1;
      assert forall i :: 0 <= i < n ==> ScriptedAt(plan, results, log, i);
      assert Scripted(plan, results, log[..n]) by {
        forall i | 0 <= i < n ensures ScriptedAt(plan, results, log[..n], i) {
          assert ScriptedAt(plan, results, log, i);
        }
      }
      LoggedResultsArePrefix(plan, results, log[..n]);
      assert ScriptedAt(plan, results, log, n);
    }
  }

  /** From the last result on, the log reports all results, under the names they came with. */
  lemma LogReportsResults(w: World, n: nat)
    requires Inv(w) && 2 * |w.job.plan| + 1 <= n <= |w.job.log| && |w.job.log| >= 2 * |w.job.plan| + 2
    ensures LoggedResults(w.job.log[..n]) == w.results
  {
    var plan, log := w.job.plan, w.job.log;
    assert ScriptedAt(plan, w.results, log, 2 * |plan| + 1);
    assert Scripted(plan, w.results, log[..n]) by {
      forall i | 0 <= i < n ensures ScriptedAt(plan, w.results, log[..n], i) {
        assert ScriptedAt(plan, w.results, log, i);
      }
    }
    LoggedResultsArePrefix(plan, w.results, log[..n]);
    assert w.results[..|plan|] == w.results;
    KnownAreTrimmed(w.results);
  }

  /** The summary in the log, and the closing event after it, carry the verdict of the quorum rule on exactly the
      connector results logged before them. */
  lemma SummaryIsVerdictOfLoggedResults(w: World, n: nat)
    requires Inv(w) && n < |w.job.log| && (w.job.log[n].body.Summary? || w.job.log[n].body.JobDone?)
    ensures w.job.log[n].body.verdict == Decide(LoggedResults(w.job.log[..n]))
  {
    assert ScriptedAt(w.job.plan, w.results, w.job.log, n);
    LogReportsResults(w, n);
  }

  // ---- Particular runs ----

  lemma {:induction false} RunConcat(w: World, a: seq<WorkerStep>, b: seq<WorkerStep>)
    ensures Run(w, a + b) == Run(Run(w, a), b)
    decreases |b|
  {
    if b == [] {
      assert a + b == a;
    } else {
      assert (a + b)[..|a + b| - 1] == a + b[..|b| - 1];
      RunConcat(w, a, b[..|b| - 1]);
    }
  }

  lemma RunOneMore(w: World, steps: seq<WorkerStep>, step: WorkerStep)
    ensures Run(w, steps + [step]) == Apply(Run(w, steps), step)
  {
    assert (steps + [step])[..|steps + [step]| - 1] == steps;
  }

  lemma {:induction false} StoppedIsFinal(w: World, steps: seq<WorkerStep>)
    requires Inv(w) && w.pc == Stopped
    ensures Run(w, steps).job == w.job
    ensures Run(w, steps).pc == Stopped
  {
    if steps != [] {
      StoppedIsFinal(w, steps[..|steps| - 1]);
      RunKeepsInv(w, steps[..|steps| - 1]);
      StepMovesForward(Run(w, steps[..|steps| - 1]), steps[|steps| - 1]);
    }
  }

  /** An exception the worker does not handle leaves the row as it is for good. Here it comes right after the job was
      marked running: whatever happens afterwards, the job stays running with an empty log. */
  lemma UnhandledExceptionLeavesJobRunning(plan: seq<string>, now: int, lifetime: nat, o: Outcome,
                                           more: seq<WorkerStep>)
    requires Controlled(plan)
    ensures var w := Run(Created(plan, now, lifetime), [Next(o), Next(o), Vanish] + more);
            w.job == Job(plan, Status.Running, now + lifetime, [])
  {
    var start, begin := Created(plan, now, lifetime), [Next(o), Next(o), Vanish];
    CreatedSatisfiesInv(plan, now, lifetime);
    assert begin == [] + [Next(o)] + [Next(o)] + [Vanish];
    RunOneMore(start, [], Next(o));
    RunOneMore(start, [] + [Next(o)], Next(o));
    RunOneMore(start, [] + [Next(o)] + [Next(o)], Vanish);
    RunKeepsInv(start, begin);
    StoppedIsFinal(Run(start, begin), more);
    RunConcat(start, begin, more);
  }

  /** From `w` to `w'` in `n` steps, each with this outcome. */
  ghost predicate Leads(w: World, o: Outcome, n: nat, w': World) {
    Run(w, seq(n, _ => Next(o))) == w'
  }

  lemma LeadsOn(w: World, o: Outcome, m: nat, mid: World, n: nat, w': World)
    requires Leads(w, o, m, mid) && Leads(mid, o, n, w')
    ensures Leads(w, o, m + n, w')
  {
    assert seq(m + n, _ => Next(o)) == seq(m, _ => Next(o)) + seq(n, _ => Next(o));
    RunConcat(w, seq(m, _ => Next(o)), seq(n, _ => Next(o)));
  }

  lemma LeadsInOne(w: World, o: Outcome) returns (w': World)
    requires Inv(w)
    ensures w' == Apply(w, Next(o)) && Leads(w, o, 1, w') && Inv(w')
  {
    w' := Apply(w, Next(o));
    StepKeepsInv(w, Next(o));
    RunOneMore(w, [], Next(o));
    assert seq(1, _ => Next(o)) == [] + [Next(o)];
  }
}
