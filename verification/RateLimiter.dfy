/** The outbound rate limiter: one lock and one last-call stamp per domain, used by any number of tasks. A task is
    described by the stretches of `acquire` between which others may run. */
module RateLimiter {
  import opened Wrappers

  /** Where the task holding the domain's lock stands. */
  datatype Phase = Free | Checking(caller: nat) | Sleeping(caller: nat, until: int) | Stamping(caller: nat)

  datatype Domain = Domain(phase: Phase, lastCall: Option<int>, grants: seq<int>)

  const IDLE := Domain(Free, None, [])

  datatype State = State(now: int, domains: map<string, Domain>)

  datatype Step =
    | Tick(ms: nat)
    | Enter(domain: string, caller: nat)
    | Check(domain: string)
    | Wake(domain: string)
    | Stamp(domain: string)
    | Abandon(domain: string)

  function At(s: State, domain: string): Domain {
    if domain in s.domains then s.domains[domain] else IDLE
  }

  /** How long the task has to sleep before the next grant. */
  function Wait(interval: nat, now: int, d: Domain): nat {
    if d.lastCall.Some? && now - d.lastCall.value < interval then interval - (now - d.lastCall.value) else 0
  }

  /** One stretch of code of the task holding (or taking) the lock of `d`; steps that cannot happen change nothing.
      The clock is read twice: to decide whether to sleep, and for the stamp. A sleeper never wakes early. */
  function Advance(interval: nat, now: int, d: Domain, step: Step): Domain {
    match step
    case Enter(_, caller) => if d.phase.Free? then d.(phase := Checking(caller)) else d
    case Check(_) =>
      if !d.phase.Checking? then d
      else if Wait(interval, now, d) > 0 then d.(phase := Sleeping(d.phase.caller, now + Wait(interval, now, d)))
      else d.(phase := Stamping(d.phase.caller))
    case Wake(_) => if d.phase.Sleeping? && d.phase.until <= now then d.(phase := Stamping(d.phase.caller)) else d
    case Stamp(_) => if d.phase.Stamping? then Domain(Free, Some(now), d.grants + [now]) else d
    // A cancellation reaches a sleeper only; it gives the lock back and stamps nothing.
    case Abandon(_) => if d.phase.Sleeping? then d.(phase := Free) else d
    case Tick(_) => d
  }

  function Apply(interval: nat, s: State, step: Step): State {
    if step.Tick? then s.(now := s.now + step.ms)
    else s.(domains := s.domains[step.domain := Advance(interval, s.now, At(s, step.domain), step)])
  }

  class OutboundRateLimiter {
    const interval: nat
    var domains: map<string, Domain>

    constructor (interval: nat)
      ensures domains == map[] && this.interval == interval
    {
      this.interval := interval;
      domains := map[];
    }

    /** The lock is taken; the per-domain entry comes into being on first use. */
    method Enter(domain: string, caller: nat) returns (entered: bool)
      modifies this
      ensures forall now :: State(now, domains) == Apply(interval, State(now, old(domains)), Step.Enter(domain, caller))
      ensures entered <==> domain in old(domains) ==> old(domains)[domain].phase.Free?
      ensures var d := if domain in old(domains) then old(domains)[domain] else Domain(Free, None, []);
              domains == old(domains)[domain := if entered then d.(phase := Checking(caller)) else d]
    {
      if domain !in domains {
        domains := domains[domain := IDLE];
      }
      entered := domains[domain].phase.Free?;
      if entered {
        domains := domains[domain := domains[domain].(phase := Checking(caller))];
      }
    }

    /** From having the lock to the stamp or the sleep. */
    method Check(domain: string, now: int) returns (sleepFor: int)
      requires domain in domains && domains[domain].phase.Checking?
      modifies this
      ensures State(now, domains) == Apply(interval, State(now, old(domains)), Step.Check(domain))
      ensures domain in domains && sleepFor == Wait(interval, now, old(domains[domain]))
      ensures var d := old(domains)[domain];
              && sleepFor == (if d.lastCall.Some? && now < d.lastCall.value + interval
                              then d.lastCall.value + interval - now else 0)
              && domains == old(domains)[domain := d.(phase := if sleepFor > 0
                                                               then Sleeping(d.phase.caller, now + sleepFor)
                                                               else Stamping(d.phase.caller))]
      ensures sleepFor > 0 <==> domains[domain].phase.Sleeping?
      ensures sleepFor > 0 ==> domains[domain].phase.until == now + sleepFor
      ensures old(domains[domain].lastCall).Some? && old(domains[domain].lastCall).value <= now ==> sleepFor <= interval
    {
      var d := domains[domain];
      sleepFor := 0;
      if d.lastCall.Some? {
        var elapsed := now - d.lastCall.value;
        if elapsed < interval {
          sleepFor := interval - elapsed;
          domains := domains[domain := d.(phase := Sleeping(d.phase.caller, now + sleepFor))];
          return;
        }
      }
      domains := domains[domain := d.(phase := Stamping(d.phase.caller))];
    }

    /** The sleep is over. */
    method Wake(domain: string, now: int)
      requires domain in domains && domains[domain].phase.Sleeping? && domains[domain].phase.until <= now
      modifies this
      ensures State(now, domains) == Apply(interval, State(now, old(domains)), Step.Wake(domain))
      ensures domain in domains && domains[domain].phase.Stamping?
    {
      domains := domains[domain := domains[domain].(phase := Stamping(domains[domain].phase.caller))];
    }

    /** A cancellation during the sleep gives the lock back. */
    method Abandon(domain: string)
      requires domain in domains && domains[domain].phase.Sleeping?
      modifies this
      ensures forall now :: State(now, domains) == Apply(interval, State(now, old(domains)), Step.Abandon(domain))
      ensures domains == old(domains)[domain := old(domains)[domain].(phase := Free)]
    {
      domains := domains[domain := domains[domain].(phase := Free)];
    }

    method Stamp(domain: string, now: int)
      requires domain in domains && domains[domain].phase.Stamping?
      modifies this
      ensures State(now, domains) == Apply(interval, State(now, old(domains)), Step.Stamp(domain))
      ensures domains == old(domains)[domain := Domain(Free, Some(now), old(domains)[domain].grants + [now])]
    {
      domains := domains[domain := Domain(Free, Some(now), domains[domain].grants + [now])];
    }

    /** The whole of it, for a task that finds the lock free; the clock shows `now` when it checks and moves on by the
        sleep and by `delay` before the stamp. `cancelled` tells whether a cancellation reaches it in its sleep. */
    method Acquire(domain: string, caller: nat, now: int, delay: nat, cancelled: bool) returns (granted: Option<int>)
      requires domain in domains ==> domains[domain].phase.Free?
      modifies this
      ensures var before := if domain in old(domains) then old(domains)[domain] else Domain(Free, None, []);
              var due := if before.lastCall.Some? then before.lastCall.value + interval else now;
              && granted == (if due <= now then Some(now + delay) else if cancelled then None else Some(due + delay))
              && domains == old(domains)[domain := if granted.Some?
                                                   then Domain(Free, granted, before.grants + [granted.value])
                                                   else before]
    {
      var entered := Enter(domain, caller);
      var sleepFor := Check(domain, now);
      if sleepFor > 0 {
        if cancelled {
          Abandon(domain);
          return None;
        }
        Wake(domain, now + sleepFor);
      }
      Stamp(domain, now + sleepFor + delay);
      return Some(now + sleepFor + delay);
    }
  }

  // ---- Spacing ----

  function Run(interval: nat, s: State, steps: seq<Step>): State {
    if steps == [] then s else Apply(interval, Run(interval, s, steps[..|steps| - 1]), steps[|steps| - 1])
  }

  function Start(now: int): State { State(now, map[]) }

  predicate Spaced(interval: nat, grants: seq<int>) {
    forall i :: 0 < i < |grants| ==> interval <= grants[i] - grants[i - 1]
  }

  predicate DomainInv(interval: nat, now: int, d: Domain) {
    && Spaced(interval, d.grants)
    && (d.lastCall.Some? <==> d.grants != [])
    && (d.grants != [] ==> d.lastCall == Some(d.grants[|d.grants| - 1]) && d.lastCall.value <= now)
    && (d.phase.Sleeping? ==> d.lastCall.Some? && d.phase.until == d.lastCall.value + interval)
    && (d.phase.Stamping? && d.lastCall.Some? ==> d.lastCall.value + interval <= now)
  }

  predicate Inv(interval: nat, s: State) {
    forall domain :: domain in s.domains ==> DomainInv(interval, s.now, s.domains[domain])
  }

  lemma {:induction false} RunKeepsInv(interval: nat, now: int, steps: seq<Step>)
    ensures Inv(interval, Run(interval, Start(now), steps))
  {
    if steps != [] {
      RunKeepsInv(interval, now, steps[..|steps| - 1]);
      var s, step := Run(interval, Start(now), steps[..|steps| - 1]), steps[|steps| - 1];
      if !step.Tick? {
        assert DomainInv(interval, s.now, At(s, step.domain));
      }
    }
  }

  /** Whatever the tasks do, and however they interleave, two consecutive grants on one domain are at least the minimal
      interval apart. */
  lemma GrantsAreSpaced(interval: nat, now: int, steps: seq<Step>, domain: string)
    ensures Spaced(interval, At(Run(interval, Start(now), steps), domain).grants)
  {
    RunKeepsInv(interval, now, steps);
  }

  /** The lock is never kept for longer than the interval: once a task has checked, letting that much time pass lets it
      stamp and give the lock back. */
  lemma HolderFinishes(interval: nat, now: int, steps: seq<Step>, domain: string)
    requires !At(Run(interval, Start(now), steps), domain).phase.Free?
    ensures var finish := [Check(domain), Tick(interval), Wake(domain), Stamp(domain)];
            At(Run(interval, Start(now), steps + finish), domain).phase.Free?
  {
    RunKeepsInv(interval, now, steps);
    var s := Run(interval, Start(now), steps);
    RunAppend(interval, Start(now), steps, Check(domain));
    RunAppend(interval, Start(now), steps + [Check(domain)], Tick(interval));
    RunAppend(interval, Start(now), steps + [Check(domain)] + [Tick(interval)], Wake(domain));
    RunAppend(interval, Start(now), steps + [Check(domain)] + [Tick(interval)] + [Wake(domain)], Stamp(domain));
    assert steps + [Check(domain), Tick(interval), Wake(domain), Stamp(domain)]
        == steps + [Check(domain)] + [Tick(interval)] + [Wake(domain)] + [Stamp(domain)];
  }

  lemma RunAppend(interval: nat, s: State, steps: seq<Step>, step: Step)
    ensures Run(interval, s, steps + [step]) == Apply(interval, Run(interval, s, steps), step)
  {
    assert (steps + [step])[..|steps + [step]| - 1] == steps;
  }

  // ---- Independence of domains ----

  predicate Concerns(step: Step, domain: string) { step.Tick? || step.domain == domain }

  function Only(steps: seq<Step>, domain: string): seq<Step> {
    if steps == [] then []
    else
      var before, step := Only(steps[..|steps| - 1], domain), steps[|steps| - 1];
      if Concerns(step, domain) then before + [step] else before
  }

  /** What happens on other domains never delays, speeds up or otherwise shows on this one: leave it out, keep the
      clock, and the domain goes through the same states. */
  lemma {:induction false} DomainsAreIndependent(interval: nat, s: State, steps: seq<Step>, domain: string)
    ensures At(Run(interval, s, steps), domain) == At(Run(interval, s, Only(steps, domain)), domain)
    ensures Run(interval, s, steps).now == Run(interval, s, Only(steps, domain)).now
  {
    if steps != [] {
      var before, step := steps[..|steps| - 1], steps[|steps| - 1];
      DomainsAreIndependent(interval, s, before, domain);
      if Concerns(step, domain) {
        RunAppend(interval, s, Only(before, domain), step);
      }
    }
  }
}
