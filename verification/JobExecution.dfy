/** The background task of a job as the code runs it: one method after the other, giving way at every await. What comes
    of it is a run of the worker machine. */
module JobExecution {
  import opened Connectors
  import opened JobStore
  import opened Jobs
  import opened JobWorker
  import opened Quorum
  import opened Text
  import opened Wrappers

  /** How an await, or a method, ends: normally, with a cancellation or an exception from one of the two lists the
      worker handles, or with one that is in neither and takes the task down. */
  datatype Exit = Normal | Handled | Escaping

  /** What happens elsewhere during one await, and how it ends. */
  datatype Pause = Pause(seconds: nat, purge: bool, exit: Exit)

  /** A connector answers, or raises one of the exceptions that become an error result; any other exception of its is
      the exit of the await it runs in. */
  datatype Reply = Answered(outcome: Outcome) | Raised

  function Taken(reply: Reply, connector: string): Outcome {
    match reply
    case Answered(outcome) => outcome
    case Raised => Outcome(connector, Error, 0)
  }

  /** What the aggregator makes of the results, as far as the row records it. */
  predicate Proposed(verdict: Verdict, connectorsRun: seq<string>, results: seq<Outcome>) {
    verdict == Decide(results) && connectorsRun == FirstOccurrences(results)
  }

  ghost predicate Reaches(a: World, b: World) {
    exists steps :: Run(a, steps) == b
  }

  lemma ReachesItself(a: World)
    ensures Reaches(a, a)
  {
    assert Run(a, []) == a;
  }

  lemma ReachesFurther(a: World, b: World, step: WorkerStep)
    requires Reaches(a, b)
    ensures Reaches(a, Apply(b, step))
  {
    var steps :| Run(a, steps) == b;
    assert (steps + [step])[..|steps + [step]| - 1] == steps;
    assert Run(a, steps + [step]) == Apply(b, step);
  }

  class Task {
    const store: Store
    const id: nat
    const plan: seq<string>
    const pauses: nat -> Pause
    const replies: nat -> Reply
    const began: int
    var now: int
    var awaits: nat
    ghost const start: World
    ghost var world: World

    /** What the first `n` connectors of the plan come back with. */
    ghost function Outcomes(n: nat): seq<Outcome>
      requires n <= |plan|
    {
      seq(n, i requires 0 <= i < n => Taken(replies(i), plan[i]))
    }

    /** The database shows what the machine's world says. */
    ghost predicate Shows()
      reads this, store
    {
      && now == world.now && began == world.begun && world.job.plan == plan
      && (if world.purged then id !in store.jobs else id in store.jobs && store.jobs[id] == world.job)
    }

    /** The results collected so far are what the connectors came back with. */
    ghost predicate Faithful()
      reads this
    {
      |world.results| <= |plan| && world.results == Outcomes(|world.results|)
    }

    /** What a logged result says about the `i`-th connector: its own answer, under the trimmed name, or an error. */
    ghost predicate ReportsReply(body: Body, i: nat)
      requires i < |plan|
    {
      match replies(i)
      case Answered(o) => body == ConnectorResult(Outcome(Trim(o.connector), o.status, o.score))
      case Raised => body == ConnectorResult(Outcome(plan[i], Error, 0))
    }

    /** Every result in the log is the reply of its connector. */
    ghost predicate LogsReplies()
      reads this
    {
      forall i :: 0 <= i < |plan| && 2 * i + 2 < |world.job.log| ==> ReportsReply(world.job.log[2 * i + 2].body, i)
    }

    lemma LoggedAreReplies()
      requires InSync()
      ensures LogsReplies()
    {
      ScriptTellsItAll(plan, world.results, world.job.log);
      forall i | 0 <= i < |plan| && 2 * i + 2 < |world.job.log|
        ensures ReportsReply(world.job.log[2 * i + 2].body, i)
      {
        assert world.results[i] == Outcomes(|world.results|)[i] && plan[i] in plan;
        RegisteredNamesAreUnpadded(plan[i]);
      }
    }

    ghost predicate InSync()
      reads this, store
    {
      Shows() && Faithful() && Inv(world) && Reaches(start, world)
    }

    ghost predicate Expired()
      reads this
    {
      now > world.job.expiresAt
    }

    /** The first `n` awaits end normally. */
    ghost predicate Calm(n: nat) { forall k :: 0 <= k < n ==> pauses(k).exit == Normal }

    /** The last await is the first that did not end normally. */
    ghost predicate Broken(exit: Exit)
      reads this
    {
      awaits > 0 && Calm(awaits - 1) && pauses(awaits - 1).exit == exit != Normal
    }

    /** Where a method leaves the task: failing if the exception is handled, which it also is when the database refuses
        (the job has expired) or a result is unacceptable; gone if it escapes. */
    ghost predicate Left(exit: Exit, unacceptable: bool)
      reads this
    {
      match exit
      case Normal => Calm(awaits)
      case Handled => world.pc == Failing && (Broken(Handled) || (Calm(awaits) && (Expired() || unacceptable)))
      case Escaping => world.pc == Stopped && Broken(Escaping)
    }

    /** What every stretch of the task keeps. */
    ghost predicate Later(before: World, awaitsBefore: nat)
      reads this
    {
      awaitsBefore <= awaits && before.now <= now && world.job.expiresAt == before.job.expiresAt
    }

    constructor (store: Store, id: nat, now: int, pauses: nat -> Pause, replies: nat -> Reply)
      requires id in store.jobs && store.jobs[id].status == Queued && store.jobs[id].log == []
      requires Controlled(store.jobs[id].plan)
      ensures InSync() && this.store == store && this.id == id && world == start && awaits == 0
      ensures start == World(store.jobs[id], now, now, false, Fetching, 0, []) && this.now == now
      ensures this.pauses == pauses && this.replies == replies
    {
      this.store, this.id, this.plan, this.now, this.began := store, id, store.jobs[id].plan, now, now;
      this.pauses, this.replies, this.awaits := pauses, replies, 0;
      this.start := World(store.jobs[id], now, now, false, Fetching, 0, []);
      this.world := World(store.jobs[id], now, now, false, Fetching, 0, []);
      new;
      ReachesItself(start);
    }

    /** Takes note of a step of the machine. */
    ghost method Record(step: WorkerStep)
      requires Inv(world) && Reaches(start, world)
      modifies this`world
      ensures world == Apply(old(world), step) && Inv(world) && Reaches(start, world)
      ensures world.job.plan == old(world).job.plan
    {
      StepKeepsInv(world, step);
      StepMovesForward(world, step);
      ReachesFurther(start, world, step);
      world := Apply(world, step);
    }

    /** Time passes, and the purge may run. */
    method LetOthersRun(seconds: nat, purge: bool)
      requires InSync()
      modifies this`now, this`world, store
      ensures InSync() && now == old(now) + seconds
      ensures world == old(world).(now := now, purged := world.purged)
    {
      now := now + seconds;
      Record(Tick(seconds));
      if purge {
        var _ := store.PurgeExpired(now);
        Record(Purge);
      }
    }

    /** Everybody else's turn. */
    method Suspend() returns (exit: Exit)
      requires InSync() && world.pc != Stopped
      modifies this, store
      ensures InSync() && old(now) <= now && awaits == old(awaits) + 1
      ensures exit == pauses(old(awaits)).exit
      ensures var pc := match exit case Normal => old(world).pc case Handled => Failing case Escaping => Stopped;
              world == old(world).(now := now, purged := world.purged, pc := pc)
    {
      var pause := pauses(awaits);
      LetOthersRun(pause.seconds, pause.purge);
      awaits := awaits + 1;
      match pause.exit {
        case Normal =>
        case Handled => Record(Fault);
        case Escaping => Record(Vanish);
      }
      return pause.exit;
    }

    /** The same while nothing has gone wrong; `refused` is what else may go wrong at this statement. */
    method Await(ghost refused: bool) returns (exit: Exit)
      requires InSync() && world.pc != Stopped && Calm(awaits)
      modifies this, store
      ensures InSync() && old(now) <= now && awaits == old(awaits) + 1 && Left(exit, refused)
      ensures exit == Normal ==> world == old(world).(now := now, purged := world.purged)
      ensures exit != Normal ==> world == old(world).(now := now, purged := world.purged, pc := world.pc)
    {
      exit := Suspend();
      assert exit == Normal ==> Calm(awaits);
    }

    // ---- The transactions, each run to its end without giving way ----

    method QueryJob() returns (exit: Exit)
      requires InSync() && world.pc == Fetching && Calm(awaits)
      modifies this`world
      ensures InSync() && Left(exit, false)
      ensures world == old(world).(pc := if exit == Normal then MarkingRunning else Failing)
    {
      var ok := store.Has(id, now);
      Record(Next(Outcome("", Pending, 0)));
      exit := if ok then Normal else Handled;
    }

    method UpdateRunning() returns (exit: Exit)
      requires InSync() && world.pc == MarkingRunning && Calm(awaits)
      modifies this`world, store
      ensures InSync() && Left(exit, false)
      ensures exit == Normal ==>
                world == old(world).(pc := Emitting(AtStart, false), job := old(world).job.(status := Status.Running))
      ensures exit != Normal ==> world == old(world).(pc := Failing)
    {
      var ok := store.MarkRunning(id, now);
      Record(Next(Outcome("", Pending, 0)));
      exit := if ok then Normal else Handled;
    }

    method CheckPayload(ghost stage: Stage, body: Body, ghost refused: bool) returns (exit: Exit)
      requires InSync() && world.pc == Emitting(stage, false) && Calm(awaits)
      requires StageInRange(world) && body == BodyFor(stage, plan, world.results)
      requires (stage == AtSummary ==> Known(world.results)) && refused == !Admissible(plan, body)
      modifies this`world
      ensures InSync() && Left(exit, refused)
      ensures world == old(world).(pc := if exit == Normal then Emitting(stage, true) else Failing)
    {
      var ok := store.CheckEvent(id, body, now);
      Record(Next(Outcome("", Pending, 0)));
      exit := if ok then Normal else Handled;
    }

    method InsertRow(ghost stage: Stage, number: nat, body: Body) returns (exit: Exit)
      requires InSync() && world.pc == Emitting(stage, true) && number == world.number + 1 && Calm(awaits)
      requires StageInRange(world) && body == BodyFor(stage, plan, world.results)
      modifies this`world, store
      ensures InSync() && Left(exit, false)
      ensures exit == Normal ==>
                var e := Event(number, Sanitized(body));
                world == old(world).(pc := NextPc(stage, plan), number := number,
                                     job := old(world).job.(log := old(world).job.log + [e]))
      ensures exit != Normal ==> world == old(world).(pc := Failing, number := number)
    {
      InsertKeepsInv(world, stage);
      var ok := store.InsertEvent(id, Event(number, Sanitized(body)));
      Record(Next(Outcome("", Pending, 0)));
      exit := if ok then Normal else Handled;
    }

    method UpdateDone(verdict: Verdict, connectorsRun: seq<string>, elapsed: int) returns (exit: Exit)
      requires InSync() && world.pc == MarkingDone && Calm(awaits) && elapsed >= 0
      requires Proposed(verdict, connectorsRun, world.results)
      modifies this`world, store
      ensures InSync() && Left(exit, false)
      ensures exit == Normal ==>
                world == old(world).(pc := Emitting(AtEnd, false), job := old(world).job.(status := Done))
      ensures exit != Normal ==> world == old(world).(pc := Failing)
    {
      if Visible(world) { ClosingSucceeds(world); }
      var ok := store.MarkDone(id, verdict.confidence, connectorsRun, elapsed, now);
      Record(Next(Outcome("", Pending, 0)));
      exit := if ok then Normal else Handled;
    }

    method UpdateFailed()
      requires InSync() && world.pc == Failing
      modifies this`world, store
      ensures InSync() && world.pc == Stopped && world.job == old(world).job.(status := world.job.status)
      ensures world.job.status == if old(world).job.status == Done || Expired() then old(world).job.status else Failed
      ensures world.results == old(world).results
    {
      var _ := store.MarkFailed(id, now);
      Record(Next(Outcome("", Pending, 0)));
    }

    // ---- The statements of the worker, each an await and then its transaction ----

    method GetJob() returns (exit: Exit)
      requires InSync() && world.pc == Fetching && Calm(awaits)
      modifies this, store
      ensures InSync() && Later(old(world), old(awaits)) && awaits == old(awaits) + 1 && Left(exit, false)
      ensures world.number == old(world).number && world.results == old(world).results && world.job == old(world).job
      ensures exit == Normal ==> world.pc == MarkingRunning
    {
      exit := Await(false);
      if exit == Normal { exit := QueryJob(); }
    }

    method MarkRunning() returns (exit: Exit)
      requires InSync() && world.pc == MarkingRunning && Calm(awaits)
      modifies this, store
      ensures InSync() && Later(old(world), old(awaits)) && awaits == old(awaits) + 1 && Left(exit, false)
      ensures world.number == old(world).number && world.results == old(world).results
      ensures world.job.log == old(world).job.log
      ensures if exit == Normal then world.pc == Emitting(AtStart, false) else world.job == old(world).job
    {
      exit := Await(false);
      if exit == Normal { exit := UpdateRunning(); }
    }

    method Check(ghost stage: Stage, body: Body, ghost refused: bool) returns (exit: Exit)
      requires InSync() && world.pc == Emitting(stage, false) && Calm(awaits)
      requires StageInRange(world) && body == BodyFor(stage, plan, world.results)
      requires (stage == AtSummary ==> Known(world.results)) && refused == !Admissible(plan, body)
      modifies this, store
      ensures InSync() && Later(old(world), old(awaits)) && awaits == old(awaits) + 1 && Left(exit, refused)
      ensures world.results == old(world).results && world.number == old(world).number && world.job == old(world).job
      ensures exit == Normal ==> world.pc == Emitting(stage, true)
    {
      exit := Await(refused);
      if exit == Normal { exit := CheckPayload(stage, body, refused); }
    }

    method Insert(ghost stage: Stage, number: nat, body: Body) returns (exit: Exit)
      requires InSync() && world.pc == Emitting(stage, true) && number == world.number + 1 && Calm(awaits)
      requires StageInRange(world) && body == BodyFor(stage, plan, world.results)
      modifies this, store
      ensures InSync() && Later(old(world), old(awaits)) && awaits == old(awaits) + 1 && Left(exit, false)
      ensures world.results == old(world).results && world.job.status == old(world).job.status
      ensures exit == Normal ==>
                && world.pc == NextPc(stage, plan) && world.number == number
                && world.job.log == old(world).job.log + [Event(number, Sanitized(body))]
      ensures exit != Normal ==> world.job == old(world).job
    {
      exit := Await(false);
      if exit == Normal { exit := InsertRow(stage, number, body); }
    }

    method MarkDone(verdict: Verdict, connectorsRun: seq<string>, elapsed: int) returns (exit: Exit)
      requires InSync() && world.pc == MarkingDone && Calm(awaits) && elapsed >= 0
      requires Proposed(verdict, connectorsRun, world.results)
      modifies this, store
      ensures InSync() && Later(old(world), old(awaits)) && awaits == old(awaits) + 1 && Left(exit, false)
      ensures world.number == old(world).number && world.results == old(world).results
      ensures world.job.log == old(world).job.log
      ensures if exit == Normal then world.pc == Emitting(AtEnd, false) else world.job == old(world).job
    {
      exit := Await(false);
      if exit == Normal { exit := UpdateDone(verdict, connectorsRun, elapsed); }
    }

    /** Appending an event takes two transactions. */
    method Emit(ghost stage: Stage, number: nat, body: Body, ghost refused: bool) returns (exit: Exit)
      requires InSync() && world.pc == Emitting(stage, false) && number == world.number + 1 && Calm(awaits)
      requires StageInRange(world) && body == BodyFor(stage, plan, world.results)
      requires (stage == AtSummary ==> Known(world.results)) && refused == !Admissible(plan, body)
      modifies this, store
      ensures InSync() && Later(old(world), old(awaits)) && old(awaits) < awaits <= old(awaits) + 2
      ensures Left(exit, refused) && world.results == old(world).results && world.job.status == old(world).job.status
      ensures exit == Normal ==>
                && world.pc == NextPc(stage, plan) && world.number == number && awaits == old(awaits) + 2
                && world.job.log == old(world).job.log + [Event(number, Sanitized(body))]
      ensures exit != Normal ==> world.job == old(world).job
    {
      exit := Check(stage, body, refused);
      if exit != Normal { return; }
      exit := Insert(stage, number, body);
    }

    // ---- The plan ----

    /** What the `i`-th connector comes back with names a planned connector, without blanks around it, and has a score
        in range. */
    ghost predicate Acceptable(i: nat)
      requires i < |plan|
    {
      var outcome := Taken(replies(i), plan[i]);
      outcome.connector in plan && 0 <= outcome.score <= 100
    }

    ghost predicate Foreign() {
      exists i :: 0 <= i < |plan| && !Acceptable(i)
    }

    /** The statements of a whole run, each with one await; the job is marked done at the last but two of them. */
    ghost function AllAwaits(): nat { 9 + 5 * |plan| }

    ghost function ClosingAwait(): nat { AllAwaits() - 2 }

    lemma LeftFor(exit: Exit, cause: bool, wider: bool)
      requires Left(exit, cause) && (cause ==> wider)
      ensures Left(exit, wider)
    {
    }

    /** The connector has run. */
    method TakeReply(i: nat) returns (result: Outcome)
      requires InSync() && i < |plan| && world.pc == RunningConnector(i) && Calm(awaits)
      modifies this`world
      ensures InSync() && result == Taken(replies(i), plan[i])
      ensures world
           == old(world).(pc := Emitting(AtConnectorResult(i), false), results := old(world).results + [result])
    {
      result := Taken(replies(i), plan[i]);
      Record(Next(result));
      assert world.results == Outcomes(i + 1);
    }

    lemma RefusedIsForeign(i: nat)
      requires InSync() && i < |plan| && !Admissible(plan, ConnectorResult(Taken(replies(i), plan[i])))
      ensures Foreign()
    {
      var outcome := Taken(replies(i), plan[i]);
      if Acceptable(i) {
        PlannedNamesAreAdmissible(plan, outcome.connector);
      }
    }

    /** One round of the plan: announce the connector, run it, log its result. */
    method RunConnector(i: nat, number: nat) returns (exit: Exit, result: Outcome)
      requires InSync() && i < |plan| && world.pc == Emitting(AtConnectorStart(i), false) && number == world.number
      requires Calm(awaits)
      modifies this, store
      ensures InSync() && Later(old(world), old(awaits)) && old(awaits) < awaits <= old(awaits) + 5
      ensures Left(exit, Foreign()) && world.job.status == old(world).job.status
      ensures exit == Normal ==>
                && awaits == old(awaits) + 5 && world.number == number + 2
                && (replies(i).Answered? ==> result == replies(i).outcome)
                && (replies(i).Raised? ==> result == Outcome(plan[i], Error, 0))
                && world.results == old(world).results + [result] && world.pc == NextPc(AtConnectorResult(i), plan)
    {
      result := Taken(replies(i), plan[i]);
      PlannedNamesAreAdmissible(plan, plan[i]);
      exit := Emit(AtConnectorStart(i), number + 1, ConnectorStarted(plan[i]), false);
      LeftFor(exit, false, Foreign());
      if exit != Normal { return; }
      exit := Await(Foreign());
      if exit != Normal { return; }
      result := TakeReply(i);
      ghost var refused := !Admissible(plan, ConnectorResult(result));
      if refused { RefusedIsForeign(i); }
      exit := Emit(AtConnectorResult(i), number + 2, ConnectorResult(result), refused);
      LeftFor(exit, refused, Foreign());
    }

    lemma UnknownIsForeign()
      requires InSync() && world.results == Outcomes(|plan|) && !Known(world.results)
      ensures Foreign()
    {
      var r :| r in world.results && r.connector !in ALLOWED_CONNECTOR_IDS;
      var i :| 0 <= i < |plan| && world.results[i] == r;
      assert !Acceptable(i);
    }

    /** Every result that was logged and then accepted by the aggregator was acceptable. */
    lemma AcceptedIsNotForeign()
      requires InSync() && world.results == Outcomes(|plan|) && Known(world.results) && |world.job.log| > 2 * |plan|
      ensures !Foreign()
    {
      forall i | 0 <= i < |plan| ensures Acceptable(i) {
        LoggedResultIsPlanned(world, i);
        assert world.results[i] == Taken(replies(i), plan[i]);
      }
    }

    /** From the accepted batch to the end: log the summary, close the job, log its end. */
    method Close(number: nat, verdict: Verdict, connectorsRun: seq<string>, elapsed: int) returns (exit: Exit)
      requires InSync() && world.pc == Emitting(AtSummary, false) && number == world.number && Calm(awaits)
      requires Proposed(verdict, connectorsRun, world.results) && Known(world.results) && elapsed >= 0
      modifies this, store
      ensures InSync() && Later(old(world), old(awaits)) && old(awaits) < awaits <= old(awaits) + 5 && Left(exit, false)
      ensures world.results == old(world).results
      ensures exit == Normal ==> awaits == old(awaits) + 5 && world.pc == Stopped
      ensures exit == Normal <==> |world.job.log| == FullLength(plan)
      ensures world.job.status == if awaits > old(awaits) + 3 then Done else Status.Running
    {
      LikelyIffSomeFinderWithoutQuorum(world.results);
      exit := Emit(AtSummary, number + 1, Body.Summary(verdict), false);
      if exit != Normal { return; }
      exit := MarkDone(verdict, connectorsRun, elapsed);
      if exit != Normal { return; }
      exit := Emit(AtEnd, number + 2, JobDone(verdict), false);
    }

    /** Aggregates; a batch the aggregator refuses fails the job without another await. */
    method Conclude(number: nat, results: seq<Outcome>) returns (exit: Exit)
      requires InSync() && world.pc == Emitting(AtSummary, false) && number == world.number && results == world.results
      requires results == Outcomes(|plan|) && Calm(awaits)
      modifies this, store
      ensures InSync() && Later(old(world), old(awaits)) && awaits <= old(awaits) + 5 && Left(exit, Foreign())
      ensures world.results == results
      ensures exit == Normal ==> awaits == old(awaits) + 5 && world.pc == Stopped && !Foreign()
      ensures exit == Normal <==> |world.job.log| == FullLength(plan)
      ensures world.job.status == if awaits > old(awaits) + 3 then Done else Status.Running
    {
      var summary := AggregateResults(results);
      if summary.Failure? {
        UnknownIsForeign();
        Record(Fault);
        return Handled;
      }
      AcceptedIsNotForeign();
      exit := Close(number, summary.value.verdict, summary.value.connectorsRun, now - began);
      LeftFor(exit, false, Foreign());
    }

    /** Up to the first event. */
    method Begin() returns (exit: Exit)
      requires InSync() && world.pc == Fetching && world.job.status == Queued && awaits == 0
      modifies this, store
      ensures InSync() && Later(old(world), 0) && 0 < awaits <= 4 && Left(exit, false)
      ensures exit == Normal ==> awaits == 4 && world.number == 1 && world.results == old(world).results
      ensures exit == Normal ==> world.pc == NextPc(AtStart, plan) && world.job.status == Status.Running
      ensures exit != Normal ==> |world.job.log| == 0
      ensures world.job.status == if awaits <= 2 then Queued else Status.Running
    {
      exit := GetJob();
      if exit != Normal { return; }
      exit := MarkRunning();
      if exit != Normal { return; }
      exit := Emit(AtStart, 1, JobStarted, false);
    }

    /** The loop over the connectors. */
    method RunPlan() returns (exit: Exit, number: nat, results: seq<Outcome>)
      requires InSync() && world.pc == NextPc(AtStart, plan) && world.number == 1 && world.results == []
      requires awaits == 4 && Calm(4) && world.job.status == Status.Running
      modifies this, store
      ensures InSync() && Later(old(world), 4) && 4 <= awaits <= 4 + 5 * |plan| && Left(exit, Foreign())
      ensures exit == Normal ==>
                && awaits == 4 + 5 * |plan| && world.pc == Emitting(AtSummary, false)
                && number == world.number && results == world.results == Outcomes(|plan|)
      ensures exit == Normal ==>
                forall i :: 0 <= i < |plan| ==>
                  && (replies(i).Answered? ==> results[i] == replies(i).outcome)
                  && (replies(i).Raised? ==> results[i] == Outcome(plan[i], Error, 0))
      ensures world.job.status == Status.Running && (exit != Normal ==> |world.job.log| < FullLength(plan))
    {
      exit, number, results := Normal, 1, [];
      for i := 0 to |plan|
        invariant InSync() && Later(old(world), 4) && awaits == 4 + 5 * i && Calm(awaits)
        invariant world.pc == if i < |plan| then Emitting(AtConnectorStart(i), false) else Emitting(AtSummary, false)
        invariant number == world.number && results == world.results && world.job.status == Status.Running
        invariant exit == Normal
      {
        var result;
        exit, result := RunConnector(i, number);
        if exit != Normal { return; }
        number, results := number + 2, results + [result];
      }
    }

    /** The body of the task; `Escaping` stands for an exception it does not catch either. */
    method ExecuteJob() returns (exit: Exit)
      requires InSync() && world == start && world.pc == Fetching && world.job.status == Queued && awaits == 0
      modifies this, store
      ensures InSync() && Later(old(world), 0) && 0 < awaits <= AllAwaits() && Left(exit, Foreign())
      ensures exit == Normal ==> awaits == AllAwaits() && world.pc == Stopped && !Foreign()
      ensures exit == Normal ==> world.results == Outcomes(|plan|)
      ensures exit == Normal <==> |world.job.log| == FullLength(plan)
      ensures LogsReplies()
      ensures world.job.status == Done <==> awaits > ClosingAwait()
      ensures world.job.status == Queued <==> awaits <= 2
      ensures awaits <= 2 ==> exit != Normal && Left(exit, false)
      ensures world.job.status != Failed
    {
      exit := Begin();
      LeftFor(exit, false, Foreign());
      if exit == Normal {
        var number, results;
        exit, number, results := RunPlan();
        if exit == Normal { exit := Conclude(number, results); }
      }
      LoggedAreReplies();
    }

    method MarkFailed()
      requires InSync() && world.pc == Failing
      modifies this, store
      ensures InSync() && world.pc == Stopped && Later(old(world), old(awaits)) && awaits == old(awaits) + 1
      ensures world.job == old(world).job.(status := world.job.status) && world.results == old(world).results
      ensures world.job.status
           == if old(world).job.status == Done || Expired() || pauses(old(awaits)).exit != Normal
              then old(world).job.status else Failed
    {
      var exit := Suspend();
      match exit {
        case Normal => UpdateFailed();
        case Handled => Record(Vanish);
        case Escaping =>
      }
    }

    ghost predicate Ended()
      reads this
    {
      world.job.status in {Done, Failed}
    }

    /** The first `n` awaits contain one that does not end normally, and either its exception escapes or the attempt to
        mark the job failed, the next await, does not end normally. */
    ghost predicate Stuck(n: nat) {
      exists f :: 0 <= f < n && Calm(f) && BreaksAt(f)
    }

    ghost predicate BreaksAt(f: nat) {
      pauses(f).exit == Escaping || (pauses(f).exit == Handled && pauses(f + 1).exit != Normal)
    }

    /** With the body broken off only by an await, whether the row ended depends on the awaits alone. */
    lemma EndedUnlessStuck(exit: Exit, broke: nat, ended: bool)
      requires 0 < broke <= AllAwaits() && Calm(broke - 1) && pauses(broke - 1).exit == exit
      requires exit == Normal ==> broke == AllAwaits()
      requires ended <==> broke > ClosingAwait() || (exit != Escaping && pauses(broke).exit == Normal)
      ensures ended <==> !Stuck(ClosingAwait())
      ensures exit == Normal <==> Calm(AllAwaits())
    {
      if exit != Normal && broke <= ClosingAwait() {
        assert BreaksAt(broke - 1) <==> !ended;
      }
    }

    /** One of the first two awaits is the first not to end normally, its exception is handled, and the next await, in
        which the job is marked failed, ends normally. */
    ghost predicate FailsFromQueue() {
      exists f :: 0 <= f < 2 && Calm(f) && pauses(f).exit == Handled && pauses(f + 1).exit == Normal
    }

    /** A body that ended within two awaits was broken off by the last of them. */
    lemma FailsFromQueueIff(exit: Exit, broke: nat)
      requires broke > 0
      requires if broke <= 2 then Calm(broke - 1) && pauses(broke - 1).exit == exit != Normal else Calm(2)
      ensures FailsFromQueue() <==> broke <= 2 && exit == Handled && pauses(broke).exit == Normal
    {
      if broke <= 2 && exit == Handled && pauses(broke).exit == Normal {
        assert pauses(broke - 1 + 1).exit == Normal;
      }
    }

    /** The task around it. `broke` is how many awaits the body took, `status` what the row said when it ended. The row
        ends as done or failed exactly if the body got past closing the job, or its exception was handled and the
        attempt to mark the job failed came through before the job expired. For a job that has not expired by then and
        connectors that answer as planned this depends on the awaits alone; and then the log is complete exactly if all
        of them end normally. The row goes straight from queued to failed exactly if the job has not expired and one of
        the first two awaits broke with a handled exception and the next came through. */
    method Work() returns (ghost broke: nat, ghost status: Status)
      requires InSync() && world == start && world.pc == Fetching && world.job.status == Queued && awaits == 0
      modifies this, store
      ensures InSync() && world.pc == Stopped && 0 < broke <= AllAwaits()
      ensures Ended() <==>
                || broke > ClosingAwait()
                || (pauses(broke - 1).exit != Escaping && pauses(broke).exit == Normal && !Expired())
      ensures !Expired() && !Foreign() ==> (Ended() <==> !Stuck(ClosingAwait()))
      ensures !Expired() ==> (|world.job.log| == FullLength(plan) <==> Calm(AllAwaits()) && !Foreign())
      ensures |world.job.log| == FullLength(plan) ==> world.results == Outcomes(|plan|)
      ensures LogsReplies()
      ensures status == Queued <==> broke <= 2
      ensures status == Queued && world.job.status == Failed <==> !Expired() && FailsFromQueue()
    {
      var exit := ExecuteJob();
      broke, status := awaits, world.job.status;
      ghost var clear, early := !Expired() && !Foreign(), !Expired();
      assert clear ==> Calm(broke - 1) && pauses(broke - 1).exit == exit;
      assert early && broke <= 2 ==> Calm(broke - 1) && pauses(broke - 1).exit == exit;
      assert broke > 2 ==> Calm(2);
      if exit == Handled { MarkFailed(); }
      if clear && !Expired() { EndedUnlessStuck(exit, broke, Ended()); }
      if early { FailsFromQueueIff(exit, broke); }
    }
  }
}
