/** The task orchestrator: modules run under two semaphores, report through a queue and can be cancelled. The state
    machine takes one step per stretch of code that runs without suspension; any task may go next. */
module Orchestrator {
  import opened Sequences
  import opened Wrappers

  datatype DegradationMode = Normal | Reduced | Critical

  /** A task waits for its first permit; an OathNet task that has the OathNet permit waits for the global one. */
  datatype Phase = Waiting | HoldsOathnet | Running | Done | Cancelled

  datatype Task = Task(oathnet: bool, phase: Phase)

  /** What a module delivered, be it a value or the exception it raised. */
  datatype Report = Report(task: nat, ok: bool, content: string)

  /** What `cancel_all` waits for, and how many tasks there were when it began. */
  datatype Snapshot = Snapshot(registered: set<nat>, count: nat)

  /** Tasks are named by their position, which makes names unique as `submit` asks. `left` is what a running consumer of
      `results()` still waits for, `wanted` what it set out to collect. `cancelling` is present while `cancel_all` runs.
      `orphans` are unfinished tasks whose registration `cancel_all` dropped, and `cancelled` tells whether it ever ran;
      the code keeps neither. */
  datatype State = State(
    capacity: nat, oathnetCapacity: nat,
    free: nat, oathnetFree: nat,
    tasks: seq<Task>, registry: set<nat>, queue: seq<Report>, expected: nat,
    wanted: nat, left: Option<nat>, yielded: seq<Report>,
    ceiling: nat, mode: DegradationMode,
    cancelling: Option<Snapshot>, orphans: set<nat>, cancelled: bool)

  function Initial(capacity: nat, oathnetCapacity: nat): State {
    State(capacity, oathnetCapacity, capacity, oathnetCapacity, [], {}, [], 0, 0, None, [], capacity, Normal,
          None, {}, false)
  }

  datatype Step =
    | Submit(oathnet: bool)
    | Acquire(task: nat)
    | Finish(task: nat, ok: bool, content: string)
    | StartResults
    | NextResult
    | BeginCancel
    | CancelTask(task: nat)
    | EndCancel

  predicate Unfinished(t: Task) { t.phase in {Waiting, HoldsOathnet, Running} }
  predicate IsRunning(t: Task) { t.phase == Running }
  predicate UsesOathnet(t: Task) { t.oathnet && t.phase in {HoldsOathnet, Running} }
  predicate IsDone(t: Task) { t.phase == Done }

  predicate UnfinishedAt(s: State, i: nat) { i < |s.tasks| && Unfinished(s.tasks[i]) }

  /** The soft gate: closed only while the ceiling is below its initial value. */
  predicate GateOpen(s: State) { !(s.ceiling < s.capacity && |s.registry| >= s.ceiling) }

  predicate Enabled(s: State, step: Step) {
    match step
    case Submit(_) => GateOpen(s)
    case Acquire(i) =>
      && i < |s.tasks|
      && var t := s.tasks[i];
         if t.phase == Waiting && t.oathnet then s.oathnetFree > 0
         else (t.phase == Waiting || t.phase == HoldsOathnet) && s.free > 0
    case Finish(i, _, _) => i < |s.tasks| && s.tasks[i].phase == Running
    case StartResults => s.left.None?
    case NextResult => s.left.Some? && s.left.value > 0 && s.queue != []
    case BeginCancel => s.cancelling.None?
    case CancelTask(i) => s.cancelling.Some? && i in s.cancelling.value.registered && UnfinishedAt(s, i)
    case EndCancel => s.cancelling.Some? && forall i :: i in s.cancelling.value.registered ==> !UnfinishedAt(s, i)
  }

  /** Leaving the `async with` blocks: each permit the task holds goes back. */
  function Release(s: State, i: nat, phase: Phase): State
    requires i < |s.tasks|
  {
    var t := s.tasks[i];
    s.(tasks := s.tasks[i := t.(phase := phase)],
       free := if IsRunning(t) then s.free + 1 else s.free,
       oathnetFree := if UsesOathnet(t) then s.oathnetFree + 1 else s.oathnetFree)
  }

  /** Steps that are not enabled change nothing. */
  function Apply(s: State, step: Step): State {
    if !Enabled(s, step) then s
    else
      match step
      case Submit(oathnet) =>
        s.(tasks := s.tasks + [Task(oathnet, Waiting)], registry := s.registry + {|s.tasks|},
           expected := s.expected + 1)
      case Acquire(i) =>
        var t := s.tasks[i];
        if t.phase == Waiting && t.oathnet
        then s.(tasks := s.tasks[i := t.(phase := HoldsOathnet)], oathnetFree := s.oathnetFree - 1)
        else s.(tasks := s.tasks[i := t.(phase := Running)], free := s.free - 1)
      case Finish(i, ok, content) =>
        Release(s, i, Done).(queue := s.queue + [Report(i, ok, content)], registry := s.registry - {i})
      case StartResults => s.(wanted := s.expected, left := Some(s.expected))
      case NextResult =>
        s.(yielded := s.yielded + [s.queue[0]], queue := s.queue[1..], left := Some(s.left.value - 1))
      case BeginCancel => s.(cancelling := Some(Snapshot(s.registry, |s.tasks|)), cancelled := true)
      case CancelTask(i) =>
        // Only a module that was running deregisters itself on the way out.
        Release(s, i, Cancelled).(registry := if IsRunning(s.tasks[i]) then s.registry - {i} else s.registry)
      case EndCancel =>
        s.(cancelling := None, registry := {}, queue := [],
           orphans := s.orphans + set i | i in s.registry && UnfinishedAt(s, i))
  }

  function Run(s: State, steps: seq<Step>): State {
    if steps == [] then s else Apply(Run(s, steps[..|steps| - 1]), steps[|steps| - 1])
  }

  // ---- The invariant ----

  ghost predicate Permits(s: State) {
    && s.free + Count(s.tasks, IsRunning) == s.capacity
    && s.oathnetFree + Count(s.tasks, UsesOathnet) == s.oathnetCapacity
    && forall i :: 0 <= i < |s.tasks| && s.tasks[i].phase == HoldsOathnet ==> s.tasks[i].oathnet
  }

  ghost predicate Registered(s: State) {
    && (forall i :: i in s.registry || i in s.orphans ==> i < |s.tasks|)
    && (forall i: nat :: UnfinishedAt(s, i) ==> i in s.registry || i in s.orphans)
    && (s.cancelling.Some? ==>
          forall i: nat :: UnfinishedAt(s, i) && i < s.cancelling.value.count ==>
            i in s.cancelling.value.registered || i in s.orphans)
    && (s.cancelling.Some? ==> s.cancelled && s.cancelling.value.count <= |s.tasks|)
    && (!s.cancelled ==> s.orphans == {} && forall i :: i in s.registry ==> UnfinishedAt(s, i))
  }

  function Reported(s: State): seq<nat> { Ids(s.yielded + s.queue) }

  function Ids(reports: seq<Report>): seq<nat> { seq(|reports|, i requires 0 <= i < |reports| => reports[i].task) }

  predicate NoRepeats(ids: seq<nat>) { forall i, j :: 0 <= i < j < |ids| ==> ids[i] != ids[j] }

  ghost predicate Reports(s: State) {
    && s.expected == |s.tasks|
    && (s.left.None? ==> s.yielded == [])
    && (s.left.Some? ==> |s.yielded| + s.left.value == s.wanted <= s.expected)
    && NoRepeats(Reported(s))
    && (forall i :: i in Reported(s) ==> i < |s.tasks| && s.tasks[i].phase == Done)
    && (!s.cancelled ==> forall i :: 0 <= i < |s.tasks| ==> s.tasks[i].phase != Cancelled)
    && (!s.cancelled ==> forall i :: 0 <= i < |s.tasks| && s.tasks[i].phase == Done ==> i in Reported(s))
  }

  ghost predicate Inv(s: State) { Permits(s) && Registered(s) && Reports(s) }

  lemma SubmitKeepsPermits(s: State, oathnet: bool)
    requires Permits(s)
    ensures Permits(Apply(s, Submit(oathnet)))
  {
    CountConcat(s.tasks, [Task(oathnet, Waiting)], IsRunning);
    CountConcat(s.tasks, [Task(oathnet, Waiting)], UsesOathnet);
  }

  lemma AcquireKeepsPermits(s: State, i: nat)
    requires Permits(s)
    ensures Permits(Apply(s, Acquire(i)))
  {
    if Enabled(s, Acquire(i)) {
      PhaseCounts(s.tasks, i, Apply(s, Acquire(i)).tasks[i].phase);
    }
  }

  /** Leaving gives back exactly what the task holds. */
  lemma ReleaseKeepsPermits(s: State, i: nat, phase: Phase)
    requires Permits(s) && i < |s.tasks| && phase in {Done, Cancelled}
    ensures Permits(Release(s, i, phase))
  {
    PhaseCounts(s.tasks, i, phase);
  }

  lemma PermitsKept(s: State, step: Step)
    requires Permits(s)
    ensures Permits(Apply(s, step))
  {
    if Enabled(s, step) {
      match step
      case Submit(oathnet) => SubmitKeepsPermits(s, oathnet);
      case Acquire(i) => AcquireKeepsPermits(s, i);
      case Finish(i, _, _) => ReleaseKeepsPermits(s, i, Done);
      case CancelTask(i) => ReleaseKeepsPermits(s, i, Cancelled);
      case _ =>
    }
  }

  lemma PhaseCounts(tasks: seq<Task>, i: nat, phase: Phase)
    requires i < |tasks|
    ensures var t, t' := tasks[i], tasks[i].(phase := phase);
            && Count(tasks[i := t'], IsRunning)
               == Count(tasks, IsRunning) - (if IsRunning(t) then 1 else 0) + (if IsRunning(t') then 1 else 0)
            && Count(tasks[i := t'], UsesOathnet)
               == Count(tasks, UsesOathnet) - (if UsesOathnet(t) then 1 else 0) + (if UsesOathnet(t') then 1 else 0)
  {
    CountUpdate(tasks, i, tasks[i].(phase := phase), IsRunning);
    CountUpdate(tasks, i, tasks[i].(phase := phase), UsesOathnet);
  }

  lemma SubmitKeepsRegistered(s: State, oathnet: bool)
    requires Registered(s) && GateOpen(s)
    ensures Registered(Apply(s, Submit(oathnet)))
  {
    var s' := Apply(s, Submit(oathnet));
    assert forall i: nat :: UnfinishedAt(s', i) <==> UnfinishedAt(s, i) || i == |s.tasks|;
  }

  lemma TaskKeepsRegistered(s: State, step: Step)
    requires Registered(s) && Enabled(s, step) && (step.Acquire? || step.Finish? || step.CancelTask?)
    ensures Registered(Apply(s, step))
  {
    var s', done := Apply(s, step), !step.Acquire?;
    assert forall i: nat :: UnfinishedAt(s', i) <==> UnfinishedAt(s, i) && !(done && i == step.task);
  }

  lemma OthersKeepRegistered(s: State, step: Step)
    requires Registered(s) && (step.StartResults? || step.NextResult? || step.BeginCancel? || step.EndCancel?)
    ensures Registered(Apply(s, step))
  {
    var s' := Apply(s, step);
    assert forall i: nat :: UnfinishedAt(s', i) <==> UnfinishedAt(s, i);
  }

  lemma RegisteredKept(s: State, step: Step)
    requires Registered(s)
    ensures Registered(Apply(s, step))
  {
    if Enabled(s, step) {
      match step
      case Submit(oathnet) => SubmitKeepsRegistered(s, oathnet);
      case Acquire(_) => TaskKeepsRegistered(s, step);
      case Finish(_, _, _) => TaskKeepsRegistered(s, step);
      case CancelTask(_) => TaskKeepsRegistered(s, step);
      case _ => OthersKeepRegistered(s, step);
    }
  }

  lemma FinishKeepsReports(s: State, i: nat, ok: bool, content: string)
    requires Reports(s) && Registered(s) && Enabled(s, Finish(i, ok, content))
    ensures Reports(Apply(s, Finish(i, ok, content)))
  {
    assert Reported(Apply(s, Finish(i, ok, content))) == Reported(s) + [i];
  }

  lemma NextResultKeepsReports(s: State)
    requires Reports(s) && Enabled(s, NextResult)
    ensures Reports(Apply(s, NextResult))
  {
    assert Reported(Apply(s, NextResult)) == Reported(s);
  }

  lemma EndCancelKeepsReports(s: State)
    requires Reports(s) && Registered(s) && Enabled(s, EndCancel)
    ensures Reports(Apply(s, EndCancel))
  {
    assert Reported(Apply(s, EndCancel)) == Reported(s)[..|s.yielded|];
  }

  lemma OthersKeepReports(s: State, step: Step)
    requires Reports(s) && Registered(s) && Enabled(s, step)
    requires step.Submit? || step.Acquire? || step.StartResults? || step.BeginCancel? || step.CancelTask?
    ensures Reports(Apply(s, step))
  {
    assert Reported(Apply(s, step)) == Reported(s);
  }

  lemma ReportsKept(s: State, step: Step)
    requires Reports(s) && Registered(s)
    ensures Reports(Apply(s, step))
  {
    if Enabled(s, step) {
      match step
      case Finish(i, ok, content) => FinishKeepsReports(s, i, ok, content);
      case NextResult => NextResultKeepsReports(s);
      case EndCancel => EndCancelKeepsReports(s);
      case _ => OthersKeepReports(s, step);
    }
  }

  lemma InvKept(s: State, step: Step)
    requires Inv(s)
    ensures Inv(Apply(s, step))
  {
    PermitsKept(s, step);
    RegisteredKept(s, step);
    ReportsKept(s, step);
  }

  lemma {:induction false} StepsKeepInv(s: State, steps: seq<Step>)
    requires Inv(s)
    ensures Inv(Run(s, steps))
  {
    if steps != [] {
      StepsKeepInv(s, steps[..|steps| - 1]);
      InvKept(Run(s, steps[..|steps| - 1]), steps[|steps| - 1]);
    }
  }

  lemma {:induction false} LimitsStay(s: State, steps: seq<Step>)
    ensures Run(s, steps).capacity == s.capacity && Run(s, steps).oathnetCapacity == s.oathnetCapacity
  {
    if steps != [] {
      LimitsStay(s, steps[..|steps| - 1]);
    }
  }

  lemma RunKeepsInv(capacity: nat, oathnetCapacity: nat, steps: seq<Step>)
    ensures var s := Run(Initial(capacity, oathnetCapacity), steps);
            Inv(s) && s.capacity == capacity && s.oathnetCapacity == oathnetCapacity
  {
    StepsKeepInv(Initial(capacity, oathnetCapacity), steps);
    LimitsStay(Initial(capacity, oathnetCapacity), steps);
  }

  // ---- Ceilings ----

  predicate PlainRunning(t: Task) { !t.oathnet && t.phase == Running }

  lemma {:induction false} RunningSplits(tasks: seq<Task>)
    ensures Count(tasks, IsRunning) <= Count(tasks, UsesOathnet) + Count(tasks, PlainRunning)
  {
    if tasks != [] {
      RunningSplits(tasks[1..]);
    }
  }

  /** In every reachable state the permits and their holders add up to the capacities; so neither limit is ever
      exceeded, and OathNet modules never crowd the others out. */
  lemma CeilingsHold(capacity: nat, oathnetCapacity: nat, steps: seq<Step>)
    ensures var s := Run(Initial(capacity, oathnetCapacity), steps);
            && s.free + Count(s.tasks, IsRunning) == capacity
            && s.oathnetFree + Count(s.tasks, UsesOathnet) == oathnetCapacity
            && (s.free == 0 ==> Count(s.tasks, PlainRunning) >= capacity - oathnetCapacity)
  {
    RunKeepsInv(capacity, oathnetCapacity, steps);
    RunningSplits(Run(Initial(capacity, oathnetCapacity), steps).tasks);
  }

  // ---- No deadlock, and termination ----

  /** Some task can take its next step by itself. */
  ghost predicate CanProceed(s: State) {
    exists i: nat :: i < |s.tasks| && TaskEnabled(s, i)
  }

  predicate TaskEnabled(s: State, i: nat) {
    Enabled(s, Acquire(i)) || Enabled(s, Finish(i, true, ""))
  }

  /** In a reachable state with an unfinished task some task can proceed, unless there is no global permit at all, or no
      OathNet permit at all and only OathNet tasks are left. */
  lemma NoDeadlock(s: State)
    requires Permits(s) && s.capacity > 0
    requires exists i: nat :: UnfinishedAt(s, i) && (s.oathnetCapacity > 0 || !s.tasks[i].oathnet)
    ensures CanProceed(s)
  {
    if Count(s.tasks, IsRunning) > 0 {
      var i := Witness(s.tasks, IsRunning);
      assert TaskEnabled(s, i);
    } else if Count(s.tasks, UsesOathnet) > 0 {
      CountZero(s.tasks, IsRunning);
      var i := Witness(s.tasks, UsesOathnet);
      assert s.tasks[i] in s.tasks;
      assert TaskEnabled(s, i);
    } else {
      var i: nat :| UnfinishedAt(s, i) && (s.oathnetCapacity > 0 || !s.tasks[i].oathnet);
      CountZero(s.tasks, IsRunning);
      CountZero(s.tasks, UsesOathnet);
      assert s.tasks[i] in s.tasks;
      assert TaskEnabled(s, i);
    }
  }

  lemma Witness(tasks: seq<Task>, p: Task -> bool) returns (i: nat)
    requires Count(tasks, p) > 0
    ensures i < |tasks| && p(tasks[i])
  {
    CountZero(tasks, p);
    var t :| t in tasks && p(t);
    i :| i < |tasks| && tasks[i] == t;
  }

  /** The permits task `i` needs do not exist. */
  predicate Hopeless(s: State, i: nat) {
    i < |s.tasks| && (s.capacity == 0 || (s.oathnetCapacity == 0 && s.tasks[i].oathnet))
  }

  lemma HopelessStaysUnfinished(s: State, step: Step, i: nat)
    requires Permits(s) && Hopeless(Apply(s, step), i)
    requires Hopeless(s, i) ==> s.tasks[i].phase !in {Running, Done}
    ensures Apply(s, step).tasks[i].phase !in {Running, Done}
  {
    if s.capacity > 0 && i < |s.tasks| {
      CountZero(s.tasks, UsesOathnet);
      assert s.tasks[i] in s.tasks;
    }
  }

  /** The exception is real: a task whose permits do not exist never runs and never delivers. */
  lemma {:induction false} NoPermitNoResult(capacity: nat, oathnetCapacity: nat, steps: seq<Step>, i: nat)
    ensures var s := Run(Initial(capacity, oathnetCapacity), steps);
            Hopeless(s, i) ==> s.tasks[i].phase !in {Running, Done}
  {
    if steps != [] {
      var before := steps[..|steps| - 1];
      NoPermitNoResult(capacity, oathnetCapacity, before, i);
      RunKeepsInv(capacity, oathnetCapacity, before);
      if Hopeless(Run(Initial(capacity, oathnetCapacity), steps), i) {
        HopelessStaysUnfinished(Run(Initial(capacity, oathnetCapacity), before), steps[|steps| - 1], i);
      }
    }
  }

  /** How many steps a task still has to take. */
  function Remaining(t: Task): int {
    match t.phase
    case Waiting => if t.oathnet then 3 else 2
    case HoldsOathnet => 2
    case Running => 1
    case _ => 0
  }

  function Work(s: State): int { Sum(s.tasks, Remaining) }

  lemma TaskStepDoesWork(s: State, step: Step)
    requires (step.Acquire? || step.Finish?) && Enabled(s, step)
    requires s.tasks[step.task].phase == HoldsOathnet ==> s.tasks[step.task].oathnet
    ensures Work(Apply(s, step)) == Work(s) - 1
  {
    SumUpdate(s.tasks, step.task, Apply(s, step).tasks[step.task], Remaining);
  }

  /** The steps are taken by tasks, each when it can be taken. */
  predicate Schedule(s: State, steps: seq<Step>) {
    steps == []
    || (var before, step := steps[..|steps| - 1], steps[|steps| - 1];
        Schedule(s, before) && (step.Acquire? || step.Finish?) && Enabled(Run(s, before), step))
  }

  lemma {:induction false} ScheduleDoesWork(s: State, steps: seq<Step>)
    requires Permits(s) && Schedule(s, steps)
    ensures Permits(Run(s, steps)) && |steps| + Work(Run(s, steps)) == Work(s)
    ensures Run(s, steps).capacity == s.capacity && Run(s, steps).oathnetCapacity == s.oathnetCapacity
  {
    if steps != [] {
      var before := steps[..|steps| - 1];
      ScheduleDoesWork(s, before);
      PermitsKept(Run(s, before), steps[|steps| - 1]);
      TaskStepDoesWork(Run(s, before), steps[|steps| - 1]);
    }
  }

  lemma {:induction false} WorkCountsUnfinished(tasks: seq<Task>)
    ensures Sum(tasks, Remaining) >= Count(tasks, Unfinished)
    ensures Count(tasks, Unfinished) == 0 ==> Sum(tasks, Remaining) == 0
  {
    if tasks != [] {
      WorkCountsUnfinished(tasks[1..]);
    }
  }

  lemma NoneUnfinished(s: State)
    ensures Count(s.tasks, Unfinished) == 0 <==> forall i: nat :: !UnfinishedAt(s, i)
  {
    CountZero(s.tasks, Unfinished);
    if Count(s.tasks, Unfinished) > 0 {
      var i := Witness(s.tasks, Unfinished);
      assert UnfinishedAt(s, i);
    } else {
      assert forall i :: 0 <= i < |s.tasks| ==> s.tasks[i] in s.tasks;
    }
  }

  /** Whatever order the tasks are scheduled in, once none can proceed all have finished, after exactly as many steps as
      there was work; no schedule is longer. */
  lemma EverySchedulingCompletes(s: State, steps: seq<Step>)
    requires Permits(s) && s.capacity > 0 && s.oathnetCapacity > 0 && Schedule(s, steps)
    ensures |steps| <= Work(s)
    ensures !CanProceed(Run(s, steps)) <==> |steps| == Work(s)
    ensures !CanProceed(Run(s, steps)) ==> forall i: nat :: !UnfinishedAt(Run(s, steps), i)
  {
    var end := Run(s, steps);
    ScheduleDoesWork(s, steps);
    WorkCountsUnfinished(end.tasks);
    NoneUnfinished(end);
    if i: nat :| UnfinishedAt(end, i) {
      NoDeadlock(end);
    }
    if CanProceed(end) {
      var i: nat :| i < |end.tasks| && TaskEnabled(end, i);
      assert UnfinishedAt(end, i);
    }
  }

  // ---- Exactly one result per module ----

  function Indices(tasks: seq<Task>, p: Task -> bool): set<nat> {
    set i: nat | i < |tasks| && p(tasks[i])
  }

  lemma {:induction false} CountIsCardinality(tasks: seq<Task>, p: Task -> bool)
    ensures |Indices(tasks, p)| == Count(tasks, p)
  {
    if tasks != [] {
      var n := |tasks| - 1;
      CountIsCardinality(tasks[..n], p);
      assert tasks == tasks[..n] + [tasks[n]];
      CountConcat(tasks[..n], [tasks[n]], p);
      assert Indices(tasks, p) == Indices(tasks[..n], p) + if p(tasks[n]) then {n} else {};
    }
  }

  function Elements(ids: seq<nat>): set<nat> { set i | i in ids }

  lemma {:induction false} DistinctIdsAsSet(ids: seq<nat>)
    requires NoRepeats(ids)
    ensures |Elements(ids)| == |ids|
  {
    if ids != [] {
      var n := |ids| - 1;
      DistinctIdsAsSet(ids[..n]);
      assert ids == ids[..n] + [ids[n]] && ids[n] !in ids[..n];
      assert Elements(ids) == Elements(ids[..n]) + {ids[n]};
    }
  }

  lemma {:induction false} UnfinishedOrDone(tasks: seq<Task>)
    requires forall i :: 0 <= i < |tasks| ==> tasks[i].phase != Cancelled
    ensures Count(tasks, Unfinished) + Count(tasks, IsDone) == |tasks|
  {
    if tasks != [] {
      UnfinishedOrDone(tasks[1..]);
    }
  }

  /** While nothing was ever cancelled: submitted = unfinished + queued + yielded, and the registry, which
      `active_count` measures, holds exactly the unfinished tasks. */
  lemma SubmissionsAreConserved(s: State)
    requires Inv(s) && !s.cancelled
    ensures s.expected == Count(s.tasks, Unfinished) + |s.queue| + |s.yielded|
    ensures s.registry == Indices(s.tasks, Unfinished) && |s.registry| == Count(s.tasks, Unfinished)
  {
    CountIsCardinality(s.tasks, Unfinished);
    CountIsCardinality(s.tasks, IsDone);
    UnfinishedOrDone(s.tasks);
    DistinctIdsAsSet(Reported(s));
    assert Elements(Reported(s)) == Indices(s.tasks, IsDone);
    assert s.registry == Indices(s.tasks, Unfinished) by {
      assert forall i: nat :: i in s.registry <==> UnfinishedAt(s, i);
    }
  }

  /** A consumer that is not cancelled never gets two reports of a module and, while it expects more, never waits in
      vain. When it is through, it has had one report of every module submitted, failures included, exactly if none was
      submitted after it started. */
  lemma ResultsYieldEachModuleOnce(s: State)
    requires Inv(s) && !s.cancelled && s.left.Some?
    ensures NoRepeats(Ids(s.yielded)) && forall i :: i in Ids(s.yielded) ==> i < |s.tasks|
    ensures s.left == Some(0) ==> ((forall i: nat :: i < |s.tasks| ==> i in Ids(s.yielded)) <==> s.wanted == |s.tasks|)
    ensures s.left == Some(0) && s.wanted == |s.tasks| ==> s.queue == [] && forall i: nat :: !UnfinishedAt(s, i)
    ensures s.left.value > 0 ==> s.queue != [] || exists i: nat :: UnfinishedAt(s, i)
  {
    SubmissionsAreConserved(s);
    var all, mine := Reported(s), Ids(s.yielded);
    assert all == mine + Ids(s.queue);
    assert forall k :: 0 <= k < |mine| ==> mine[k] == all[k];
    forall i | i in mine ensures i in all {
      var k :| 0 <= k < |mine| && mine[k] == i;
    }
    NoneUnfinished(s);
    if s.left == Some(0) && s.wanted == |s.tasks| {
      assert all == mine;
      forall i: nat | i < |s.tasks| ensures i in mine {
        assert !UnfinishedAt(s, i) && s.tasks[i].phase == Done;
      }
    }
    if forall i: nat :: i < |s.tasks| ==> i in mine {
      DistinctIdsAsSet(mine);
      AllIds(mine, |s.tasks|);
    }
  }

  function Below(n: nat): (ids: set<nat>)
    ensures |ids| == n && forall i: nat :: i in ids <==> i < n
  {
    if n == 0 then {} else Below(n - 1) + {n - 1}
  }

  lemma AllIds(ids: seq<nat>, n: nat)
    requires forall i: nat :: i < n ==> i in ids
    ensures |Elements(ids)| >= n
  {
    assert Below(n) <= Elements(ids);
    assert Elements(ids) == Below(n) + (Elements(ids) - Below(n));
  }

  /** A consumer that starts before the only submission is through at once, without its report. */
  lemma EarlyConsumerMissesSubmission()
    ensures var s := Run(Initial(5, 3), [StartResults, Submit(false)]);
            s.left == Some(0) && s.wanted == 0 && |s.tasks| == 1 && s.yielded == []
  {
    var start := Initial(5, 3);
    var waiting := start.(left := Some(0));
    RunOneMore(start, [], StartResults);
    assert [] + [StartResults] == [StartResults] && Apply(start, StartResults) == waiting;
    RunOneMore(start, [StartResults], Submit(false));
    assert [StartResults] + [Submit(false)] == [StartResults, Submit(false)];
    SubmitLater(waiting);
  }

  lemma SubmitLater(s: State)
    requires s.ceiling == s.capacity
    ensures var s' := Apply(s, Submit(false));
            s'.left == s.left && s'.wanted == s.wanted && |s'.tasks| == |s.tasks| + 1 && s'.yielded == s.yielded
  {
  }

  // ---- Cancellation ----

  ghost predicate AtRest(s: State) { s.queue == [] && forall i: nat :: !UnfinishedAt(s, i) }

  /** At rest all permits are free. */
  lemma RestFreesPermits(s: State)
    requires Permits(s) && forall i: nat :: !UnfinishedAt(s, i)
    ensures s.free == s.capacity && s.oathnetFree == s.oathnetCapacity
  {
    forall t | t in s.tasks ensures !IsRunning(t) && !UsesOathnet(t) {
      var i :| 0 <= i < |s.tasks| && s.tasks[i] == t;
      assert !UnfinishedAt(s, i);
    }
    CountZero(s.tasks, IsRunning);
    CountZero(s.tasks, UsesOathnet);
  }

  /** A task loses its registration unfinished exactly if it was submitted while `cancel_all` ran and is not over. */
  lemma OrphanedIffLateAndUnfinished(s: State, i: nat)
    requires Inv(s) && Enabled(s, EndCancel)
    ensures i in Apply(s, EndCancel).orphans <==>
              i in s.orphans || (i >= s.cancelling.value.count && UnfinishedAt(s, i))
  {
  }

  predicate LateUnfinished(s: State, count: nat, i: nat) { i >= count && UnfinishedAt(s, i) }

  /** When `cancel_all` ends, everything is back at rest, with nothing registered or queued and all permits free,
      exactly if nothing submitted while it ran, and nothing an earlier `cancel_all` had orphaned, is unfinished. */
  lemma RestIffNothingLate(s: State)
    requires Inv(s) && Enabled(s, EndCancel)
    ensures var s' := Apply(s, EndCancel);
            && s'.registry == {} && s'.queue == []
            && (AtRest(s') <==>
                  && (forall i: nat :: !LateUnfinished(s, s.cancelling.value.count, i))
                  && forall i: nat :: i in s.orphans ==> !UnfinishedAt(s, i))
            && (AtRest(s') ==> s'.free == s'.capacity && s'.oathnetFree == s'.oathnetCapacity)
  {
    var s', count := Apply(s, EndCancel), s.cancelling.value.count;
    assert forall i: nat :: UnfinishedAt(s', i) <==> UnfinishedAt(s, i);
    if AtRest(s') {
      RestFreesPermits(s');
      assert forall i: nat :: !LateUnfinished(s, count, i) by {
        assert forall i: nat :: !UnfinishedAt(s, i);
      }
    } else {
      var i: nat :| UnfinishedAt(s', i);
      if i >= count {
        assert LateUnfinished(s, count, i);
      } else {
        assert i in s.orphans;
      }
    }
  }

  /** Steps that belong to one cancellation. */
  predicate Within(steps: seq<Step>) {
    forall k :: 0 <= k < |steps| ==> !steps[k].EndCancel? && !steps[k].BeginCancel?
  }

  lemma {:induction false} SnapshotStays(s: State, steps: seq<Step>)
    requires s.cancelling.Some? && Within(steps)
    ensures Run(s, steps).cancelling == s.cancelling && Run(s, steps).orphans == s.orphans
  {
    if steps != [] {
      SnapshotStays(s, steps[..|steps| - 1]);
      assert !steps[|steps| - 1].EndCancel? && !steps[|steps| - 1].BeginCancel?;
    }
  }

  /** Over a whole run: let `cancel_all` begin in any reachable state without unfinished orphans, let anything happen
      until it can end, and end it. Then everything is at rest exactly if no task submitted since it began is
      unfinished. */
  lemma CancellationEndsAtRestIff(s: State, steps: seq<Step>)
    requires Inv(s) && s.cancelling.None? && Within(steps)
    requires forall i: nat :: i in s.orphans ==> !UnfinishedAt(s, i)
    requires Enabled(Run(Apply(s, BeginCancel), steps), EndCancel)
    ensures var before := Run(Apply(s, BeginCancel), steps);
            AtRest(Apply(before, EndCancel)) <==> forall i: nat :: !LateUnfinished(before, |s.tasks|, i)
  {
    var begun := Apply(s, BeginCancel);
    InvKept(s, BeginCancel);
    StepsKeepInv(begun, steps);
    SnapshotStays(begun, steps);
    FinishedStaysFinished(begun, steps);
    OrphansStayFinished(s, Run(begun, steps));
    RestIffNothingLate(Run(begun, steps));
  }

  lemma OrphansStayFinished(s: State, s': State)
    requires Registered(s) && s'.orphans == s.orphans && forall i: nat :: i in s.orphans ==> !UnfinishedAt(s, i)
    requires forall i: nat :: i < |s.tasks| && !UnfinishedAt(s, i) ==> !UnfinishedAt(s', i)
    ensures forall i: nat :: i in s'.orphans ==> !UnfinishedAt(s', i)
  {
  }

  lemma StepKeepsFinished(s: State, step: Step)
    ensures |s.tasks| <= |Apply(s, step).tasks|
    ensures forall i: nat :: i < |s.tasks| && !UnfinishedAt(s, i) ==> !UnfinishedAt(Apply(s, step), i)
  {
  }

  lemma {:induction false} FinishedStaysFinished(s: State, steps: seq<Step>)
    ensures |s.tasks| <= |Run(s, steps).tasks|
    ensures forall i: nat :: i < |s.tasks| && !UnfinishedAt(s, i) ==> !UnfinishedAt(Run(s, steps), i)
  {
    if steps != [] {
      var before, step := Run(s, steps[..|steps| - 1]), steps[|steps| - 1];
      FinishedStaysFinished(s, steps[..|steps| - 1]);
      StepKeepsFinished(before, step);
    }
  }

  /** Without a new submission a consumer at rest gets nothing more. */
  lemma {:induction false} RestYieldsNothing(s: State, steps: seq<Step>)
    requires AtRest(s) && s.left.Some?
    requires forall k :: 0 <= k < |steps| ==> !steps[k].Submit?
    ensures AtRest(Run(s, steps)) && Run(s, steps).left == s.left && Run(s, steps).yielded == s.yielded
  {
    if steps != [] {
      var before, step := steps[..|steps| - 1], steps[|steps| - 1];
      RestYieldsNothing(s, before);
      var mid := Run(s, before);
      assert step.Acquire? || step.Finish? || step.CancelTask? ==> !UnfinishedAt(mid, step.task);
      assert forall i: nat :: UnfinishedAt(Apply(mid, step), i) == UnfinishedAt(mid, i);
    }
  }

  predicate NoSubmission(steps: seq<Step>) { forall k :: 0 <= k < |steps| ==> !steps[k].Submit? }

  ghost predicate CanFinish(s: State) { exists steps :: NoSubmission(steps) && Run(s, steps).left == Some(0) }

  /** After a cancellation, with nothing submitted later, a consumer finishes exactly if it was waiting for nothing. */
  lemma ConsumerFinishesIffNothingLeft(s: State)
    requires AtRest(s) && s.left.Some?
    ensures CanFinish(s) <==> s.left == Some(0)
  {
    if CanFinish(s) {
      var steps :| NoSubmission(steps) && Run(s, steps).left == Some(0);
      RestYieldsNothing(s, steps);
    } else {
      assert NoSubmission([]) && Run(s, []) == s;
    }
  }

  lemma RunOneMore(s: State, steps: seq<Step>, step: Step)
    ensures Run(s, steps + [step]) == Apply(Run(s, steps), step)
  {
    assert (steps + [step])[..|steps + [step]| - 1] == steps;
  }

  lemma RunFive(s: State, a: Step, b: Step, c: Step, d: Step, e: Step)
    ensures Run(s, [a, b, c, d, e]) == Apply(Apply(Apply(Apply(Apply(s, a), b), c), d), e)
  {
    assert Run(s, []) == s && [] + [a] == [a] && [a] + [b] == [a, b] && [a, b] + [c] == [a, b, c];
    assert [a, b, c] + [d] == [a, b, c, d] && [a, b, c, d] + [e] == [a, b, c, d, e];
    RunOneMore(s, [], a);
    RunOneMore(s, [a], b);
    RunOneMore(s, [a, b], c);
    RunOneMore(s, [a, b, c], d);
    RunOneMore(s, [a, b, c, d], e);
  }

  /** The state in which one module has been submitted and `cancel_all` waits for it, with or without a consumer. */
  function Cancelling(left: Option<nat>): State {
    Initial(5, 3).(tasks := [Task(false, Waiting)], registry := {0}, expected := 1,
                   wanted := if left.Some? then left.value else 0, left := left,
                   cancelling := Some(Snapshot({0}, 1)), cancelled := true)
  }

  /** The same after the module has been cancelled. */
  function CancelledOne(left: Option<nat>): State { Cancelling(left).(tasks := [Task(false, Cancelled)]) }

  lemma CancelOnly(left: Option<nat>)
    ensures Apply(Cancelling(left), CancelTask(0)) == CancelledOne(left) && !UnfinishedAt(CancelledOne(left), 0)
  {
    assert UnfinishedAt(Cancelling(left), 0);
  }

  lemma CancelWithConsumer()
    ensures Apply(Apply(Apply(Initial(5, 3), Submit(false)), StartResults), BeginCancel) == Cancelling(Some(1))
  {
  }

  lemma CancelWithoutConsumer()
    ensures Apply(Apply(Initial(5, 3), Submit(false)), BeginCancel) == Cancelling(None)
  {
  }

  lemma EndsAtRest(left: Option<nat>)
    ensures AtRest(Apply(CancelledOne(left), EndCancel)) && Apply(CancelledOne(left), EndCancel).left == left
  {
    var s := CancelledOne(left);
    assert !UnfinishedAt(s, 0);
    assert forall i: nat :: !UnfinishedAt(Apply(s, EndCancel), i);
  }

  /** A consumer of one module, cancelled before the module has run: it still expects one report and never gets it. */
  lemma CancelStrandsTheConsumer()
    ensures var s := Run(Initial(5, 3), [Submit(false), StartResults, BeginCancel, CancelTask(0), EndCancel]);
            AtRest(s) && s.left == Some(1) && !CanFinish(s)
  {
    RunFive(Initial(5, 3), Submit(false), StartResults, BeginCancel, CancelTask(0), EndCancel);
    CancelWithConsumer();
    CancelOnly(Some(1));
    EndsAtRest(Some(1));
    ConsumerFinishesIffNothingLeft(Apply(CancelledOne(Some(1)), EndCancel));
  }

  lemma LateSubmission()
    ensures var s := Apply(Apply(CancelledOne(None), Submit(false)), EndCancel);
            s.orphans == {1} && s.registry == {} && UnfinishedAt(s, 1)
  {
    var late := Apply(CancelledOne(None), Submit(false));
    assert late.tasks == [Task(false, Cancelled), Task(false, Waiting)] && late.registry == {0, 1};
    assert !UnfinishedAt(late, 0) && UnfinishedAt(late, 1) && Enabled(late, EndCancel);
    assert (set i | i in late.registry && UnfinishedAt(late, i)) == {1};
  }

  /** A module submitted while the cancellation of another is being waited for: it is left waiting, unregistered. */
  lemma LateSubmissionIsOrphaned()
    ensures var s := Run(Initial(5, 3), [Submit(false), BeginCancel, CancelTask(0), Submit(false), EndCancel]);
            s.orphans == {1} && s.registry == {} && UnfinishedAt(s, 1)
  {
    RunFive(Initial(5, 3), Submit(false), BeginCancel, CancelTask(0), Submit(false), EndCancel);
    CancelWithoutConsumer();
    CancelOnly(None);
    LateSubmission();
  }

  // ---- The object ----

  class TaskOrchestrator {
    const capacity: nat
    const oathnetCapacity: nat
    var free: nat
    var oathnetFree: nat
    var tasks: seq<Task>
    var registry: set<nat>
    var queue: seq<Report>
    var expected: nat
    var wanted: nat
    var left: Option<nat>
    var yielded: seq<Report>
    var ceiling: nat
    var mode: DegradationMode
    var cancelling: Option<Snapshot>
    ghost var orphans: set<nat>
    ghost var cancelled: bool

    ghost function Abs(): State
      reads this
    {
      State(capacity, oathnetCapacity, free, oathnetFree, tasks, registry, queue, expected, wanted, left, yielded,
            ceiling, mode, cancelling, orphans, cancelled)
    }

    constructor (maxConcurrent: nat := 5, maxOathnet: nat := 3)
      ensures Abs() == Initial(maxConcurrent, maxOathnet)
    {
      capacity, oathnetCapacity, free, oathnetFree := maxConcurrent, maxOathnet, maxConcurrent, maxOathnet;
      tasks, registry, queue, expected, wanted, left, yielded := [], {}, [], 0, 0, None, [];
      ceiling, mode, cancelling, orphans, cancelled := maxConcurrent, Normal, None, {}, false;
    }

    method Submit(oathnet: bool) returns (accepted: bool)
      modifies this
      ensures Abs() == Apply(old(Abs()), Step.Submit(oathnet)) && accepted == GateOpen(old(Abs()))
      ensures accepted <==> old(ceiling) >= capacity || |old(registry)| < old(ceiling)
      ensures Abs()
           == if !accepted then old(Abs())
              else old(Abs()).(tasks := old(tasks) + [Task(oathnet, Waiting)], expected := old(expected) + 1,
                               registry := old(registry) + {|old(tasks)|})
    {
      if ceiling < capacity && |registry| >= ceiling {
        return false;
      }
      registry := registry + {|tasks|};
      tasks := tasks + [Task(oathnet, Waiting)];
      expected := expected + 1;
      return true;
    }

    /** One attempt to take the permit the task needs next, OathNet before global. */
    method Acquire(i: nat) returns (acquired: bool)
      requires i < |tasks| && tasks[i].phase in {Waiting, HoldsOathnet}
      modifies this
      ensures Abs() == Apply(old(Abs()), Step.Acquire(i)) && acquired == Enabled(old(Abs()), Step.Acquire(i))
      ensures var t := old(tasks)[i];
              if t.oathnet && t.phase == Waiting
              then
                && acquired == (old(oathnetFree) > 0)
                && (acquired ==> Abs() == old(Abs()).(tasks := old(tasks)[i := Task(true, HoldsOathnet)],
                                                      oathnetFree := old(oathnetFree) - 1))
              else
                && acquired == (old(free) > 0)
                && (acquired ==> Abs() == old(Abs()).(tasks := old(tasks)[i := Task(t.oathnet, Phase.Running)],
                                                      free := old(free) - 1))
      ensures !acquired ==> Abs() == old(Abs())
    {
      var t := tasks[i];
      if t.phase == Waiting && t.oathnet {
        if oathnetFree == 0 { return false; }
        oathnetFree := oathnetFree - 1;
        tasks := tasks[i := t.(phase := HoldsOathnet)];
      } else {
        if free == 0 { return false; }
        free := free - 1;
        tasks := tasks[i := t.(phase := Running)];
      }
      return true;
    }

    method FinishModule(i: nat, ok: bool, content: string)
      requires i < |tasks| && tasks[i].phase == Running
      modifies this
      ensures Abs() == Apply(old(Abs()), Finish(i, ok, content))
      ensures queue == old(queue) + [Report(i, ok, content)] && registry == old(registry) - {i}
      ensures tasks == old(tasks)[i := Task(old(tasks)[i].oathnet, Done)] && free == old(free) + 1
      ensures oathnetFree == old(oathnetFree) + if old(tasks)[i].oathnet then 1 else 0
      ensures Abs() == old(Abs()).(queue := queue, registry := registry, tasks := tasks, free := free,
                                   oathnetFree := oathnetFree)
    {
      queue := queue + [Report(i, ok, content)];
      registry := registry - {i};
      Leave(i, Done);
    }

    method Leave(i: nat, phase: Phase)
      requires i < |tasks|
      modifies this
      ensures Abs() == Release(old(Abs()), i, phase)
    {
      var t := tasks[i];
      if t.phase == Running { free := free + 1; }
      if UsesOathnet(t) { oathnetFree := oathnetFree + 1; }
      tasks := tasks[i := t.(phase := phase)];
    }

    method StartResults()
      requires left.None?
      modifies this
      ensures Abs() == Apply(old(Abs()), Step.StartResults)
      ensures Abs() == old(Abs()).(wanted := old(expected), left := Some(old(expected)))
    {
      wanted, left := expected, Some(expected);
    }

    method NextResult() returns (report: Option<Report>)
      requires left.Some?
      modifies this
      ensures Abs() == Apply(old(Abs()), Step.NextResult)
      ensures report == if old(left).value > 0 && old(queue) != [] then Some(old(queue)[0]) else None
      ensures report.Some? ==>
                Abs() == old(Abs()).(yielded := old(yielded) + [report.value], queue := old(queue)[1..],
                                     left := Some(old(left).value - 1))
      ensures report.None? ==> Abs() == old(Abs())
    {
      if left.value == 0 || queue == [] {
        return None;
      }
      report := Some(queue[0]);
      yielded, queue, left := yielded + [queue[0]], queue[1..], Some(left.value - 1);
    }

    /** Rejects a ceiling above the initial one and leaves everything else alone. */
    method SetCeiling(newCeiling: nat) returns (accepted: bool)
      modifies this
      ensures accepted <==> newCeiling <= capacity
      ensures Abs() == if accepted then old(Abs()).(ceiling := newCeiling) else old(Abs())
    {
      accepted := newCeiling <= capacity;
      if accepted { ceiling := newCeiling; }
    }

    method SetDegradationMode(newMode: DegradationMode)
      modifies this
      ensures Abs() == old(Abs()).(mode := newMode)
    {
      mode := newMode;
    }

    method BeginCancel()
      requires cancelling.None?
      modifies this
      ensures Abs() == Apply(old(Abs()), Step.BeginCancel)
      ensures Abs() == old(Abs()).(cancelling := Some(Snapshot(old(registry), |old(tasks)|)), cancelled := true)
    {
      cancelling, cancelled := Some(Snapshot(registry, |tasks|)), true;
    }

    method CancelTask(i: nat)
      requires cancelling.Some? && i in cancelling.value.registered
      requires i < |tasks| && tasks[i].phase in {Waiting, HoldsOathnet, Phase.Running}
      modifies this
      ensures Abs() == Apply(old(Abs()), Step.CancelTask(i))
      ensures var t := old(tasks)[i];
              Abs() == old(Abs()).(
                tasks := old(tasks)[i := Task(t.oathnet, Cancelled)],
                free := if t.phase == Phase.Running then old(free) + 1 else old(free),
                oathnetFree := if t.oathnet && t.phase != Waiting then old(oathnetFree) + 1 else old(oathnetFree),
                registry := if t.phase == Phase.Running then old(registry) - {i} else old(registry))
    {
      if tasks[i].phase == Running { registry := registry - {i}; }
      Leave(i, Cancelled);
    }

    /** Clears the registry and drains the queue. */
    method EndCancel()
      requires cancelling.Some?
      requires forall i :: i in cancelling.value.registered && i < |tasks| ==> tasks[i].phase in {Done, Cancelled}
      modifies this
      ensures Abs() == Apply(old(Abs()), Step.EndCancel)
      ensures cancelling.None? && registry == {} && queue == []
      ensures Abs() == old(Abs()).(cancelling := None, registry := {}, queue := [], orphans := orphans)
    {
      ghost var s := Abs();
      orphans := orphans + set i | i in registry && UnfinishedAt(s, i);
      cancelling, registry := None, {};
      while queue != []
        invariant Abs().(queue := []) == Apply(s, Step.EndCancel)
        decreases |queue|
      {
        queue := queue[1..];
      }
    }

    /** Delivers the cancellation to every task of the snapshot that is not done. */
    method CancelSnapshot()
      requires Inv(Abs()) && cancelling.Some? && orphans == {}
      modifies this
      ensures Inv(Abs()) && Enabled(Abs(), Step.EndCancel) && orphans == {}
      ensures cancelling == old(cancelling) && |tasks| == old(|tasks|) && expected == old(expected)
      ensures left == old(left) && yielded == old(yielded)
    {
      var i := 0;
      while i < |tasks|
        invariant Inv(Abs()) && cancelling == old(cancelling) && |tasks| == old(|tasks|) && orphans == {}
        invariant expected == old(expected) && left == old(left) && yielded == old(yielded)
        invariant i <= |tasks| && forall k: nat :: k < i && k in cancelling.value.registered ==> !UnfinishedAt(Abs(), k)
        decreases |tasks| - i
      {
        if i in cancelling.value.registered && Unfinished(tasks[i]) {
          InvKept(Abs(), Step.CancelTask(i));
          CancelTask(i);
        }
        i := i + 1;
      }
    }

    /** Cancels every unfinished registered task, waits for them, and clears the registry and the queue. Here nothing
        else runs meanwhile and every module honours its cancellation. */
    method CancelAll()
      requires Inv(Abs()) && cancelling.None? && orphans == {}
      modifies this
      ensures Inv(Abs()) && cancelling.None? && AtRest(Abs()) && orphans == {}
      ensures registry == {} && free == capacity && oathnetFree == oathnetCapacity
      ensures expected == old(expected) && left == old(left) && yielded == old(yielded)
    {
      InvKept(Abs(), Step.BeginCancel);
      BeginCancel();
      CancelSnapshot();
      InvKept(Abs(), Step.EndCancel);
      RestIffNothingLate(Abs());
      EndCancel();
    }
  }
}
