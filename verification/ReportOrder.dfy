/** Where the orchestrator's reports come from: each from the step in which its module finished, in the order of these
    steps. */
module ReportOrder {
  import opened Orchestrator
  import opened Wrappers

  function Before(start: State, steps: seq<Step>, n: nat): State
    requires n <= |steps|
  {
    Run(start, steps[..n])
  }

  /** The `n`-th step lets a running module finish with this report. */
  ghost predicate Delivers(start: State, steps: seq<Step>, n: nat, r: Report) {
    && n < |steps| && steps[n] == Finish(r.task, r.ok, r.content)
    && r.task < |Before(start, steps, n).tasks| && Before(start, steps, n).tasks[r.task].phase == Phase.Running
  }

  predicate Increasing(at: seq<nat>) { forall i, j :: 0 <= i < j < |at| ==> at[i] < at[j] }

  /** `at[i]` is the step that delivered the `i`-th report. */
  ghost predicate DeliveredAt(start: State, steps: seq<Step>, at: seq<nat>, reports: seq<Report>) {
    |at| == |reports| && Increasing(at) && forall i :: 0 <= i < |at| ==> Delivers(start, steps, at[i], reports[i])
  }

  /** No delivery is missing. */
  ghost predicate Exhaustive(start: State, steps: seq<Step>, at: seq<nat>) {
    forall n: nat, r: Report :: Delivers(start, steps, n, r) ==> n in at
  }

  lemma DeliversStays(start: State, before: seq<Step>, step: Step, n: nat, r: Report)
    requires n < |before|
    ensures Delivers(start, before + [step], n, r) <==> Delivers(start, before, n, r)
  {
    assert (before + [step])[..n] == before[..n];
  }

  lemma DeliversNow(start: State, before: seq<Step>, step: Step, r: Report)
    ensures Delivers(start, before + [step], |before|, r)
            <==> step == Finish(r.task, r.ok, r.content) && Enabled(Run(start, before), step)
  {
    assert (before + [step])[..|before|] == before;
  }

  lemma EarlierDeliveriesStay(start: State, before: seq<Step>, step: Step, at: seq<nat>, reports: seq<Report>)
    requires DeliveredAt(start, before, at, reports)
    ensures DeliveredAt(start, before + [step], at, reports)
  {
    forall i | 0 <= i < |at| ensures Delivers(start, before + [step], at[i], reports[i]) {
      assert Delivers(start, before, at[i], reports[i]);
      DeliversStays(start, before, step, at[i], reports[i]);
    }
  }

  lemma OneDeliveryMore(start: State, before: seq<Step>, step: Step, at: seq<nat>, reports: seq<Report>, r: Report)
    requires DeliveredAt(start, before, at, reports) && step == Finish(r.task, r.ok, r.content)
    requires Enabled(Run(start, before), step)
    ensures DeliveredAt(start, before + [step], at + [|before|], reports + [r])
  {
    EarlierDeliveriesStay(start, before, step, at, reports);
    DeliversNow(start, before, step, r);
    forall i | 0 <= i < |at| ensures at[i] < |before| { assert Delivers(start, before, at[i], reports[i]); }
  }

  lemma FewerDeliveries(start: State, steps: seq<Step>, at: seq<nat>, reports: seq<Report>, m: nat)
    requires DeliveredAt(start, steps, at, reports) && m <= |at|
    ensures DeliveredAt(start, steps, at[..m], reports[..m])
  {
  }

  /** What one step does to the reports: a finish adds its report at the end, the end of a cancellation drops those that
      are queued, and no other step changes which there are. */
  lemma ReportsAfter(s: State, step: Step)
    ensures var all, s' := s.yielded + s.queue, Apply(s, step);
            s'.yielded + s'.queue
            == if !Enabled(s, step) then all
               else if step.Finish? then all + [Report(step.task, step.ok, step.content)]
               else if step.EndCancel? then s.yielded
               else all
  {
    var s' := Apply(s, step);
    if Enabled(s, step) && step.NextResult? {
      assert s.queue == [s.queue[0]] + s.queue[1..];
    }
    if Enabled(s, step) && step.Finish? {
      assert s'.yielded + s'.queue == (s.yielded + s.queue) + [Report(step.task, step.ok, step.content)];
    }
    assert s.yielded + [] == s.yielded;
  }

  lemma StillExhaustive(start: State, before: seq<Step>, step: Step, at: seq<nat>, at': seq<nat>)
    requires Exhaustive(start, before, at) && forall n :: n in at ==> n in at'
    requires Enabled(Run(start, before), step) && step.Finish? ==> |before| in at'
    ensures Exhaustive(start, before + [step], at')
  {
    forall n: nat, r: Report | Delivers(start, before + [step], n, r) ensures n in at' {
      if n < |before| {
        DeliversStays(start, before, step, n, r);
      } else {
        DeliversNow(start, before, step, r);
      }
    }
  }

  predicate NoEndCancel(steps: seq<Step>) { forall n :: 0 <= n < |steps| ==> !steps[n].EndCancel? }

  /** Over every run: each report that a consumer has had, or that is still queued, is what the module of that task
      finished with, failures and contents included, and the reports stand in the order in which the modules finished.
      As long as no cancellation has ended, none is missing. */
  lemma {:induction false} ReportsAreWhatModulesDelivered(capacity: nat, oathnetCapacity: nat, steps: seq<Step>)
    returns (at: seq<nat>)
    ensures var start := Initial(capacity, oathnetCapacity);
            var s := Run(start, steps);
            && DeliveredAt(start, steps, at, s.yielded + s.queue)
            && (NoEndCancel(steps) ==> Exhaustive(start, steps, at))
  {
    var start := Initial(capacity, oathnetCapacity);
    if steps == [] {
      at := [];
    } else {
      var before, step := steps[..|steps| - 1], steps[|steps| - 1];
      assert steps == before + [step];
      var early := ReportsAreWhatModulesDelivered(capacity, oathnetCapacity, before);
      var s := Run(start, before);
      at := OneStepMore(start, before, step, s, early);
      if NoEndCancel(steps) {
        assert NoEndCancel(before) && !step.EndCancel?;
        StillExhaustive(start, before, step, early, at);
      }
    }
  }

  lemma OneStepMore(start: State, before: seq<Step>, step: Step, s: State, early: seq<nat>) returns (at: seq<nat>)
    requires s == Run(start, before) && DeliveredAt(start, before, early, s.yielded + s.queue)
    ensures var s' := Apply(s, step); DeliveredAt(start, before + [step], at, s'.yielded + s'.queue)
    ensures !step.EndCancel? ==> forall n :: n in early ==> n in at
    ensures Enabled(s, step) && step.Finish? ==> |before| in at
  {
    ReportsAfter(s, step);
    EarlierDeliveriesStay(start, before, step, early, s.yielded + s.queue);
    if Enabled(s, step) && step.Finish? {
      at := early + [|before|];
      OneDeliveryMore(start, before, step, early, s.yielded + s.queue, Report(step.task, step.ok, step.content));
    } else if Enabled(s, step) && step.EndCancel? {
      at := early[..|s.yielded|];
      FewerDeliveries(start, before + [step], early, s.yielded + s.queue, |s.yielded|);
      assert (s.yielded + s.queue)[..|s.yielded|] == s.yielded;
    } else {
      at := early;
    }
  }
}
