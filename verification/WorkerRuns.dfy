/** Particular runs of the worker. */
module WorkerRuns {
  import opened Connectors
  import opened Jobs
  import opened JobWorker
  import opened Quorum
  import opened Text

  lemma CheckPasses(w: World, stage: Stage, o: Outcome)
    requires Visible(w) && w.pc == Emitting(stage, false) && StageInRange(w) && stage != AtSummary
    requires Admissible(w.job.plan, BodyFor(stage, w.job.plan, w.results))
    ensures Apply(w, Next(o)) == w.(pc := Emitting(stage, true))
  {
  }

  lemma InsertPasses(w: World, stage: Stage, o: Outcome)
    requires Inv(w) && Visible(w) && w.pc == Emitting(stage, true) && StageInRange(w)
    ensures Apply(w, Next(o)) == Logged(w, stage)
  {
    InsertKeepsInv(w, stage);
  }

  /** With the event of its stage logged. */
  function Logged(w: World, stage: Stage): World
    requires stage.AtConnectorStart? ==> stage.i < |w.job.plan|
    requires stage.AtConnectorResult? ==> stage.i < |w.results|
  {
    var e := Event(w.number + 1, Sanitized(BodyFor(stage, w.job.plan, w.results)));
    w.(number := w.number + 1, job := w.job.(log := w.job.log + [e]), pc := NextPc(stage, w.job.plan))
  }

  lemma Checks(w: World, stage: Stage, o: Outcome) returns (w': World)
    requires Inv(w) && Visible(w) && w.pc == Emitting(stage, false) && StageInRange(w) && stage != AtSummary
    requires Admissible(w.job.plan, BodyFor(stage, w.job.plan, w.results))
    ensures Leads(w, o, 1, w') && Inv(w') && w' == w.(pc := Emitting(stage, true))
  {
    w' := LeadsInOne(w, o);
    CheckPasses(w, stage, o);
  }

  lemma Logs(w: World, stage: Stage, o: Outcome) returns (w': World)
    requires Inv(w) && Visible(w) && w.pc == Emitting(stage, true) && StageInRange(w)
    ensures Leads(w, o, 1, w') && Inv(w') && w' == Logged(w, stage)
  {
    w' := LeadsInOne(w, o);
    InsertPasses(w, stage, o);
  }

  lemma SameEvent(w: World, checked: World, stage: Stage)
    requires StageInRange(w) && w.pc == Emitting(stage, false) && checked == w.(pc := Emitting(stage, true))
    ensures Logged(checked, stage) == Logged(w, stage)
  {
  }

  /** Two steps log an event that passes the check. */
  lemma EmitsInTwo(w: World, stage: Stage, o: Outcome) returns (w': World)
    requires Inv(w) && Visible(w) && w.pc == Emitting(stage, false) && StageInRange(w) && stage != AtSummary
    requires Admissible(w.job.plan, BodyFor(stage, w.job.plan, w.results))
    ensures Leads(w, o, 2, w') && Inv(w') && w' == Logged(w, stage)
  {
    var checked := Checks(w, stage, o);
    w' := Logs(checked, stage, o);
    SameEvent(w, checked, stage);
    LeadsOn(w, o, 1, checked, 1, w');
  }

  lemma PaddedMockIsMock()
    ensures Trim(" mock") == "mock" == Trim("mock")
  {
    assert " mock"[1..] == "mock";
    assert Lstrip(IsSpace, " mock") == Lstrip(IsSpace, "mock") == "mock";
  }

  /** The first two steps mark the job running. */
  lemma RunsUntilStart(plan: seq<string>, now: int, lifetime: nat, o: Outcome) returns (w: World)
    requires Controlled(plan)
    ensures Leads(Created(plan, now, lifetime), o, 2, w) && Inv(w)
    ensures w == Created(plan, now, lifetime).(pc := Emitting(AtStart, false),
                                               job := Job(plan, Status.Running, now + lifetime, []))
  {
    var start := Created(plan, now, lifetime);
    CreatedSatisfiesInv(plan, now, lifetime);
    var fetched := LeadsInOne(start, o);
    w := LeadsInOne(fetched, o);
    LeadsOn(start, o, 1, fetched, 1, w);
  }

  lemma RunsUntilConnector(now: int, lifetime: nat, o: Outcome) returns (w: World)
    ensures Leads(Created(["mock"], now, lifetime), o, 6, w) && Inv(w) && Visible(w)
    ensures w.pc == RunningConnector(0) && w.job.plan == ["mock"] && w.job.status == Status.Running
    ensures |w.job.log| == 2 && w.results == []
  {
    var start := Created(["mock"], now, lifetime);
    var begun := RunsUntilStart(["mock"], now, lifetime, o);
    var first := EmitsInTwo(begun, AtStart, o);
    LeadsOn(start, o, 2, begun, 2, first);
    PlannedNamesAreAdmissible(["mock"], "mock");
    w := EmitsInTwo(first, AtConnectorStart(0), o);
    LeadsOn(start, o, 4, first, 2, w);
  }

  lemma RunsUntilResult(now: int, lifetime: nat, o: Outcome) returns (w: World)
    requires o == Outcome(" mock", Found, 90)
    ensures Leads(Created(["mock"], now, lifetime), o, 9, w) && Inv(w) && Visible(w) && w.results == [o]
    ensures w.pc == Emitting(AtSummary, false) && w.job.plan == ["mock"] && w.job.status == Status.Running
    ensures |w.job.log| == 3 && w.job.log[2].body == ConnectorResult(Outcome("mock", Found, 90))
  {
    var start := Created(["mock"], now, lifetime);
    PaddedMockIsMock();
    var connected := RunsUntilConnector(now, lifetime, o);
    var answered := LeadsInOne(connected, o);
    LeadsOn(start, o, 6, connected, 1, answered);
    w := EmitsInTwo(answered, AtConnectorResult(0), o);
    LeadsOn(start, o, 7, answered, 2, w);
  }

  /** A single connector that answers under its planned name with a blank before it: the result is logged under the
      trimmed name, and then the job fails at the summary. */
  lemma PaddedNameFailsJob(now: int, lifetime: nat)
    ensures var o := Outcome(" mock", Found, 90);
            var w := Run(Created(["mock"], now, lifetime), seq(11, _ => Next(o)));
            && w.job.status == Failed && |w.job.log| == 3
            && w.job.log[2].body == ConnectorResult(Outcome("mock", Found, 90))
  {
    var o, start := Outcome(" mock", Found, 90), Created(["mock"], now, lifetime);
    var w := RunsUntilResult(now, lifetime, o);
    assert !Unpadded(o.connector) && o in [o];
    OnlyForeignResultsFail(w, o);
    var failing := LeadsInOne(w, o);
    LeadsOn(start, o, 9, w, 1, failing);
    var failed := LeadsInOne(failing, o);
    LeadsOn(start, o, 10, failing, 1, failed);
  }

  /** The first four steps for a job with an empty plan. */
  lemma EmptyPlanStarts(now: int, o: Outcome) returns (w: World)
    ensures Leads(Created([], now, 0), o, 4, w) && Inv(w) && Visible(w) && w.now == now
    ensures w.pc == Emitting(AtSummary, false) && w.job.plan == [] && |w.job.log| == 1 && w.results == []
    ensures w.job.status == Status.Running && w.job.expiresAt == now && !w.purged
  {
    var begun := RunsUntilStart([], now, 0, o);
    w := EmitsInTwo(begun, AtStart, o);
    LeadsOn(Created([], now, 0), o, 2, begun, 2, w);
  }

  lemma EmptyPlanIsAccepted(w: World, o: Outcome)
    requires Inv(w) && Visible(w) && w.pc == Emitting(AtSummary, false) && w.results == []
    ensures Apply(w, Next(o)) == w.(pc := Emitting(AtSummary, true))
  {
    LikelyIffSomeFinderWithoutQuorum([]);
  }

  /** Three more, and the job is done, with its summary logged and its closing event to come. */
  lemma EmptyPlanFinishes(now: int, o: Outcome) returns (w: World)
    ensures Leads(Created([], now, 0), o, 7, w)
    ensures w.job.status == Done && |w.job.log| == 2 && w.job.expiresAt == now == w.now && !w.purged
  {
    var start := Created([], now, 0);
    var w4 := EmptyPlanStarts(now, o);
    EmptyPlanIsAccepted(w4, o);
    var w5 := LeadsInOne(w4, o);
    LeadsOn(start, o, 4, w4, 1, w5);
    InsertPasses(w5, AtSummary, o);
    var w6 := LeadsInOne(w5, o);
    LeadsOn(start, o, 5, w5, 1, w6);
    ClosingSucceeds(w6);
    w := LeadsInOne(w6, o);
    LeadsOn(start, o, 6, w6, 1, w);
  }
}
