/** The memory watchdog: samples of memory use move the orchestrator between degradation modes, with hysteresis. */
module Watchdog {
  import opened Integers
  import opened Wrappers
  import opened Orchestrator

  const THRESHOLD_REDUCED_PCT := 80.0
  const THRESHOLD_CRITICAL_PCT := 85.0
  const THRESHOLD_RESTORE_PCT := 75.0

  const CEILING_NORMAL := 5
  const CEILING_REDUCED := 2
  const CEILING_CRITICAL := 0

  function DecideMode(pct: real, current: DegradationMode): DegradationMode {
    if pct >= THRESHOLD_CRITICAL_PCT then Critical
    else if pct >= THRESHOLD_REDUCED_PCT then Reduced
    else if pct < THRESHOLD_RESTORE_PCT then Normal
    else current
  }

  function CeilingForMode(mode: DegradationMode): nat {
    match mode case Critical => CEILING_CRITICAL case Reduced => CEILING_REDUCED case Normal => CEILING_NORMAL
  }

  /** A ceiling above the orchestrator's initial one is refused, and then the mode is not changed either: the background
      loop catches the error and carries on. */
  function Sampled(s: State, pct: real): State {
    var next := DecideMode(pct, s.mode);
    if next == s.mode || CeilingForMode(next) > s.capacity then s
    else s.(ceiling := CeilingForMode(next), mode := next)
  }

  method ApplyDegradation(orchestrator: TaskOrchestrator, pct: real) returns (raised: bool)
    modifies orchestrator
    ensures orchestrator.Abs() == Sampled(old(orchestrator.Abs()), pct)
    ensures raised <==> var next := DecideMode(pct, old(orchestrator.mode));
                        next != old(orchestrator.mode) && CeilingForMode(next) > orchestrator.capacity
    ensures raised ==> orchestrator.Abs() == old(orchestrator.Abs())
    ensures !raised ==>
              && orchestrator.mode == (if pct >= 85.0 then Critical else if pct >= 80.0 then Reduced
                                       else if pct < 75.0 then Normal else old(orchestrator.mode))
              && orchestrator.ceiling == (if orchestrator.mode == old(orchestrator.mode) then old(orchestrator.ceiling)
                                          else if pct >= 85.0 then 0 else if pct >= 80.0 then 2 else 5)
  {
    var next := DecideMode(pct, orchestrator.mode);
    if next != orchestrator.mode {
      var accepted := orchestrator.SetCeiling(CeilingForMode(next));
      if !accepted { return true; }
      orchestrator.SetDegradationMode(next);
    }
    return false;
  }

  // ---- Hysteresis over whole runs ----

  function Watch(s: State, samples: seq<real>): State {
    if samples == [] then s else Sampled(Watch(s, samples[..|samples| - 1]), samples[|samples| - 1])
  }

  predicate InBand(pct: real) { THRESHOLD_RESTORE_PCT <= pct < THRESHOLD_REDUCED_PCT }

  function ClassOf(pct: real): DegradationMode
    requires !InBand(pct)
  {
    if pct >= THRESHOLD_CRITICAL_PCT then Critical else if pct >= THRESHOLD_REDUCED_PCT then Reduced else Normal
  }

  /** The class of the last sample outside the band; NORMAL if there is none. */
  function LastClass(samples: seq<real>): DegradationMode {
    if samples == [] then Normal
    else
      var pct := samples[|samples| - 1];
      if InBand(pct) then LastClass(samples[..|samples| - 1]) else ClassOf(pct)
  }

  lemma {:induction false} ModeFollowsSamples(capacity: nat, oathnetCapacity: nat, samples: seq<real>)
    requires capacity >= CEILING_NORMAL
    ensures var s := Watch(Initial(capacity, oathnetCapacity), samples);
            && s.capacity == capacity && s.mode == LastClass(samples)
            && (s.mode != Normal || capacity == CEILING_NORMAL ==> s.ceiling == CeilingForMode(s.mode))
  {
    if samples != [] {
      ModeFollowsSamples(capacity, oathnetCapacity, samples[..|samples| - 1]);
    }
  }

  /** All between 75 and 80, the latter excluded. */
  predicate Undecided(samples: seq<real>) { forall k :: 0 <= k < |samples| ==> 75.0 <= samples[k] < 80.0 }

  lemma {:induction false} UndecidedKeepsClass(before: seq<real>, band: seq<real>)
    requires Undecided(band)
    ensures LastClass(before + band) == LastClass(before)
    decreases |band|
  {
    if band == [] {
      assert before + band == before;
    } else {
      assert (before + band)[..|before + band| - 1] == before + band[..|band| - 1];
      assert InBand(band[|band| - 1]);
      UndecidedKeepsClass(before, band[..|band| - 1]);
    }
  }

  /** The last decisive sample sets mode and ceiling, however many undecided ones follow; before any, nothing is set. */
  lemma LastDecisiveSampleRules(capacity: nat, oathnetCapacity: nat, before: seq<real>, pct: real, band: seq<real>)
    requires capacity >= 5 && Undecided(band) && (pct < 75.0 || pct >= 80.0)
    ensures var s := Watch(Initial(capacity, oathnetCapacity), before + [pct] + band);
            && (pct >= 85.0 ==> s.mode == Critical && s.ceiling == 0)
            && (80.0 <= pct < 85.0 ==> s.mode == Reduced && s.ceiling == 2)
            && (pct < 75.0 ==> s.mode == Normal && (capacity == 5 ==> s.ceiling == 5))
    ensures Watch(Initial(capacity, oathnetCapacity), band).mode == Normal
  {
    ModeFollowsSamples(capacity, oathnetCapacity, before + [pct] + band);
    ModeFollowsSamples(capacity, oathnetCapacity, band);
    UndecidedKeepsClass(before + [pct], band);
    UndecidedKeepsClass([], band);
    assert [] + band == band;
    assert (before + [pct])[..|before + [pct]| - 1] == before;
  }

  ghost predicate FollowsSamples(capacity: nat, oathnetCapacity: nat) {
    forall samples :: Watch(Initial(capacity, oathnetCapacity), samples).mode == LastClass(samples)
  }

  ghost predicate CeilingMatchesMode(capacity: nat, oathnetCapacity: nat) {
    forall samples :: var s := Watch(Initial(capacity, oathnetCapacity), samples); s.ceiling == CeilingForMode(s.mode)
  }

  /** The mode is the class of the last decisive sample, over every run, exactly for orchestrators built with a limit of
      at least the normal ceiling: a smaller one can never leave a degraded mode again. The ceiling always matches the
      mode exactly for the default limit, which the singleton has. */
  lemma HysteresisIffDefaultLimits(capacity: nat, oathnetCapacity: nat)
    ensures FollowsSamples(capacity, oathnetCapacity) <==> capacity >= CEILING_NORMAL
    ensures CeilingMatchesMode(capacity, oathnetCapacity) <==> capacity == CEILING_NORMAL
  {
    var start := Initial(capacity, oathnetCapacity);
    if capacity >= CEILING_NORMAL {
      forall samples ensures Watch(start, samples).mode == LastClass(samples) {
        ModeFollowsSamples(capacity, oathnetCapacity, samples);
      }
    } else {
      StuckBelowNormal(capacity, oathnetCapacity);
    }
    if capacity == CEILING_NORMAL {
      forall samples ensures var s := Watch(start, samples); s.ceiling == CeilingForMode(s.mode) {
        ModeFollowsSamples(capacity, oathnetCapacity, samples);
      }
    } else {
      assert Watch(start, []).ceiling != CeilingForMode(Watch(start, []).mode);
    }
  }

  lemma StuckBelowNormal(capacity: nat, oathnetCapacity: nat)
    requires capacity < CEILING_NORMAL
    ensures Watch(Initial(capacity, oathnetCapacity), [90.0, 50.0]).mode == Critical
    ensures LastClass([90.0, 50.0]) == Normal
  {
    var start := Initial(capacity, oathnetCapacity);
    assert [90.0, 50.0][..1] == [90.0] && [90.0][..0] == [];
    assert Watch(start, []) == start;
    assert Watch(start, [90.0]) == Sampled(start, 90.0);
    assert Watch(start, [90.0, 50.0]) == Sampled(Watch(start, [90.0]), 50.0);
  }

  /** Below the normal ceiling a degraded mode is never left for normal, whatever samples follow. */
  lemma {:induction false} NeverNormalAgain(capacity: nat, oathnetCapacity: nat, before: seq<real>, after: seq<real>)
    requires capacity < CEILING_NORMAL && Watch(Initial(capacity, oathnetCapacity), before).mode != Normal
    ensures Watch(Initial(capacity, oathnetCapacity), before + after).mode != Normal
    ensures Watch(Initial(capacity, oathnetCapacity), before + after).capacity == capacity
    decreases |after|
  {
    var start := Initial(capacity, oathnetCapacity);
    if after == [] {
      assert before + after == before;
      CapacityStays(start, before);
    } else {
      assert (before + after)[..|before + after| - 1] == before + after[..|after| - 1];
      NeverNormalAgain(capacity, oathnetCapacity, before, after[..|after| - 1]);
    }
  }

  lemma {:induction false} CapacityStays(s: State, samples: seq<real>)
    ensures Watch(s, samples).capacity == s.capacity
  {
    if samples != [] {
      CapacityStays(s, samples[..|samples| - 1]);
    }
  }

  // ---- The gate under memory pressure ----

  /** Orchestrator steps and samples, interleaved. */
  datatype Event = Work(step: Step) | Sample(pct: real)

  /** The orchestrator, and how many tasks were registered when the current mode was entered. */
  datatype Watched = Watched(s: State, atTransition: nat)

  function Happen(w: Watched, e: Event): Watched {
    match e
    case Work(step) => w.(s := Apply(w.s, step))
    case Sample(pct) =>
      var s := Sampled(w.s, pct);
      Watched(s, if s.mode != w.s.mode then |s.registry| else w.atTransition)
  }

  function Live(w: Watched, events: seq<Event>): Watched {
    if events == [] then w else Happen(Live(w, events[..|events| - 1]), events[|events| - 1])
  }

  /** While degraded, no more tasks are registered than when the mode was entered, or than its ceiling if that is
      more. */
  predicate Bounded(w: Watched) {
    w.s.mode != Normal ==> |w.s.registry| <= Max(w.atTransition, w.s.ceiling)
  }

  /** The gate is in force: it only is while the ceiling lies below the initial one. */
  predicate Gated(w: Watched) {
    && w.s.capacity !in {CEILING_CRITICAL, CEILING_REDUCED} && Bounded(w)
    && (w.s.mode != Normal ==> w.s.ceiling == CeilingForMode(w.s.mode) < w.s.capacity)
  }

  lemma RegistryGrowth(s: State, step: Step)
    ensures var s' := Apply(s, step);
            && s'.capacity == s.capacity && s'.ceiling == s.ceiling && s'.mode == s.mode
            && |s'.registry| <= |s.registry| + (if step.Submit? && GateOpen(s) then 1 else 0)
  {
    var s' := Apply(s, step);
    if Enabled(s, step) && step.Submit? {
      assert |s.registry + {|s.tasks|}| <= |s.registry| + 1;
    } else if s'.registry != {} {
      Subset(s'.registry, s.registry);
    }
  }

  lemma Subset(a: set<nat>, b: set<nat>)
    requires a <= b
    ensures |a| <= |b|
  {
    assert b == a + (b - a);
  }

  lemma GatedKept(w: Watched, e: Event)
    requires Gated(w)
    ensures Gated(Happen(w, e))
  {
    if e.Work? {
      RegistryGrowth(w.s, e.step);
    }
  }

  lemma {:induction false} StaysGated(capacity: nat, oathnetCapacity: nat, events: seq<Event>)
    requires capacity !in {CEILING_CRITICAL, CEILING_REDUCED}
    ensures Gated(Live(Watched(Initial(capacity, oathnetCapacity), 0), events))
  {
    if events != [] {
      StaysGated(capacity, oathnetCapacity, events[..|events| - 1]);
      GatedKept(Live(Watched(Initial(capacity, oathnetCapacity), 0), events[..|events| - 1]), events[|events| - 1]);
    }
  }

  ghost predicate AlwaysBounded(capacity: nat, oathnetCapacity: nat) {
    forall events :: Bounded(Live(Watched(Initial(capacity, oathnetCapacity), 0), events))
  }

  /** Samples and tasks in any order: a degraded orchestrator never grows, exactly if its initial limit differs from
      both degraded ceilings. With a limit equal to one of them the gate compares the ceiling with itself and stays
      open. */
  lemma DegradedNeverGrowsIff(capacity: nat, oathnetCapacity: nat)
    ensures AlwaysBounded(capacity, oathnetCapacity) <==> capacity !in {CEILING_CRITICAL, CEILING_REDUCED}
  {
    var start := Watched(Initial(capacity, oathnetCapacity), 0);
    if capacity !in {CEILING_CRITICAL, CEILING_REDUCED} {
      forall events ensures Bounded(Live(start, events)) {
        StaysGated(capacity, oathnetCapacity, events);
      }
    } else {
      OpenGate(capacity, oathnetCapacity);
    }
  }

  lemma OneMore(w: Watched, events: seq<Event>, e: Event)
    ensures Live(w, events + [e]) == Happen(Live(w, events), e)
  {
    assert (events + [e])[..|events + [e]| - 1] == events;
  }

  /** A degraded orchestrator with an open gate and `n` tasks, all registered. */
  predicate Flooded(w: Watched, n: nat) {
    && w.s.mode != Normal && w.s.ceiling == w.s.capacity <= CEILING_REDUCED && w.atTransition == 0
    && |w.s.tasks| == n == |w.s.registry| && forall i :: i in w.s.registry ==> i < n
  }

  lemma SubmitFloods(w: Watched, n: nat)
    requires Flooded(w, n)
    ensures Flooded(Happen(w, Work(Submit(false))), n + 1)
  {
  }

  lemma Flood(start: Watched, events: seq<Event>, n: nat) returns (more: seq<Event>)
    requires Flooded(Live(start, events), n)
    ensures Flooded(Live(start, more), n + 1)
  {
    more := events + [Work(Submit(false))];
    OneMore(start, events, Work(Submit(false)));
    SubmitFloods(Live(start, events), n);
  }

  lemma FloodsTo(start: Watched, sample: Event) returns (events: seq<Event>)
    requires Flooded(Happen(start, sample), 0)
    ensures Flooded(Live(start, events), 3)
  {
    OneMore(start, [], sample);
    assert [] + [sample] == [sample];
    events := Flood(start, [sample], 0);
    events := Flood(start, events, 1);
    events := Flood(start, events, 2);
  }

  lemma OpenGate(capacity: nat, oathnetCapacity: nat)
    requires capacity in {CEILING_CRITICAL, CEILING_REDUCED}
    ensures !AlwaysBounded(capacity, oathnetCapacity)
  {
    var start := Watched(Initial(capacity, oathnetCapacity), 0);
    var events := FloodsTo(start, Sample(if capacity == CEILING_CRITICAL then 90.0 else 80.0));
    assert !Bounded(Live(start, events));
  }

  /** The watchdog touches nothing but the gate: permits, tasks, registry and results are as they were. */
  lemma SamplesKeepInvariant(s: State, pct: real)
    requires Inv(s)
    ensures Inv(Sampled(s, pct))
    ensures Sampled(s, pct) == s.(ceiling := Sampled(s, pct).ceiling, mode := Sampled(s, pct).mode)
  {
    assert Reported(Sampled(s, pct)) == Reported(s);
  }
}
