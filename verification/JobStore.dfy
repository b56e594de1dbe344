/** The job store over the database: the status rows with their guarded updates, the event log, replay and purge. */
module JobStore {
  import opened Connectors
  import opened Jobs
  import opened Quorum
  import opened Text
  import opened Wrappers

  /** What an update that may have been refused leaves in the table. */
  function Written(jobs: map<nat, Job>, id: nat, answer: Option<Job>): map<nat, Job> {
    if answer.Some? then jobs[id := answer.value] else jobs
  }

  class Store {
    var jobs: map<nat, Job>

    predicate Has(id: nat, now: int)
      reads this
    {
      id in jobs && Live(jobs[id], now)
    }

    constructor ()
      ensures jobs == map[]
    {
      jobs := map[];
    }

    /** The loop behind the refusal of unregistered names; what it collects is trimmed. */
    method ValidateConnectorNames(names: seq<string>) returns (clean: Option<seq<string>>)
      ensures clean.Some? <==> Registered(names)
      ensures clean.Some? <==> forall i :: 0 <= i < |names| ==> Trim(names[i]) in ALLOWED_CONNECTOR_IDS
      ensures clean.Some? ==> clean.value == seq(|names|, i requires 0 <= i < |names| => Trim(names[i]))
    {
      var trimmed := [];
      for i := 0 to |names|
        invariant trimmed == seq(i, k requires 0 <= k < i => Trim(names[k]))
        invariant forall k :: 0 <= k < i ==> Trim(names[k]) in ALLOWED_CONNECTOR_IDS
      {
        if Trim(names[i]) !in ALLOWED_CONNECTOR_IDS {
          assert names[i] in names;
          return None;
        }
        trimmed := trimmed + [Trim(names[i])];
      }
      return Some(trimmed);
    }

    /** A new row under an identifier that is not in use, if every connector is registered. */
    method CreateJob(id: nat, plan: seq<string>, now: int, lifetime: nat) returns (ok: bool)
      requires id !in jobs
      modifies this
      ensures ok <==> forall i :: 0 <= i < |plan| ==> Trim(plan[i]) in ALLOWED_CONNECTOR_IDS
      ensures ok ==> var clean := seq(|plan|, i requires 0 <= i < |plan| => Trim(plan[i]));
                     jobs == old(jobs)[id := Job(clean, Queued, now + lifetime, [])]
      ensures !ok ==> jobs == old(jobs)
    {
      var clean := ValidateConnectorNames(plan);
      if clean.None? { return false; }
      jobs := jobs[id := Job(clean.value, Queued, now + lifetime, [])];
      return true;
    }

    /** `false` stands for the refused transition, here and below. */
    method MarkRunning(id: nat, now: int) returns (ok: bool)
      modifies this
      ensures var answer := if id in old(jobs) then Jobs.MarkRunning(old(jobs)[id], now) else None;
              jobs == Written(old(jobs), id, answer) && (ok <==> answer.Some?)
      ensures ok <==> id in old(jobs) && now <= old(jobs)[id].expiresAt && old(jobs)[id].status == Queued
      ensures jobs == if ok then old(jobs)[id := old(jobs)[id].(status := Status.Running)] else old(jobs)
    {
      if !Has(id, now) || jobs[id].status != Queued { return false; }
      jobs := jobs[id := jobs[id].(status := Status.Running)];
      return true;
    }

    method MarkDone(id: nat, confidence: int, connectorsRun: seq<string>, elapsed: int, now: int) returns (ok: bool)
      modifies this
      ensures var answer := if id !in old(jobs) then None
                            else Jobs.MarkDone(old(jobs)[id], confidence, connectorsRun, elapsed, now);
              jobs == Written(old(jobs), id, answer) && (ok <==> answer.Some?)
      ensures ok <==>
                && id in old(jobs) && now <= old(jobs)[id].expiresAt
                && (old(jobs)[id].status == Queued || old(jobs)[id].status == Status.Running)
                && 0 <= confidence <= 100 && elapsed >= 0
                && forall i :: 0 <= i < |connectorsRun| ==> Trim(connectorsRun[i]) in ALLOWED_CONNECTOR_IDS
      ensures jobs == if ok then old(jobs)[id := old(jobs)[id].(status := Done)] else old(jobs)
    {
      if !(0 <= confidence <= 100) || elapsed < 0 { return false; }
      var clean := ValidateConnectorNames(connectorsRun);
      if clean.None? { return false; }
      if !Has(id, now) || jobs[id].status !in {Queued, Status.Running} { return false; }
      jobs := jobs[id := jobs[id].(status := Done)];
      return true;
    }

    method MarkFailed(id: nat, now: int) returns (ok: bool)
      modifies this
      ensures var answer := if id in old(jobs) then Jobs.MarkFailed(old(jobs)[id], now) else None;
              jobs == Written(old(jobs), id, answer) && (ok <==> answer.Some?)
      ensures ok <==>
                && id in old(jobs) && now <= old(jobs)[id].expiresAt
                && (old(jobs)[id].status == Queued || old(jobs)[id].status == Status.Running)
      ensures jobs == if ok then old(jobs)[id := old(jobs)[id].(status := Failed)] else old(jobs)
    {
      if !Has(id, now) || jobs[id].status !in {Queued, Status.Running} { return false; }
      jobs := jobs[id := jobs[id].(status := Failed)];
      return true;
    }

    /** First half of appending an event: look the job up and check the payload against its plan. */
    method CheckEvent(id: nat, body: Body, now: int) returns (ok: bool)
      ensures ok <==> Has(id, now) && Admissible(jobs[id].plan, body)
      ensures ok ==> id in jobs && now <= jobs[id].expiresAt
      ensures id in jobs && now <= jobs[id].expiresAt ==>
                match body
                case ConnectorStarted(name) =>
                  ok <==> |name| <= 256 && Trim(name) in ALLOWED_CONNECTOR_IDS && Trim(name) in jobs[id].plan
                case ConnectorResult(Outcome(name, _, score)) =>
                  ok <==> && |name| <= 256 && Trim(name) in ALLOWED_CONNECTOR_IDS && Trim(name) in jobs[id].plan
                          && 0 <= score <= 100
                case Summary(verdict) => ok <==> 0 <= verdict.confidence <= 100
                case JobDone(verdict) => ok <==> 0 <= verdict.confidence <= 100
                case _ => ok
    {
      if !Has(id, now) { return false; }
      return Admissible(jobs[id].plan, body);
    }

    /** Second half, its own transaction: the insert fails on a missing row or a number already taken. */
    method InsertEvent(id: nat, e: Event) returns (ok: bool)
      modifies this
      ensures var answer := if id in old(jobs) then Insert(old(jobs)[id], e) else None;
              jobs == Written(old(jobs), id, answer) && (ok <==> answer.Some?)
      ensures ok <==>
                && id in old(jobs) && e.number >= 1
                && forall k :: 0 <= k < |old(jobs)[id].log| ==> old(jobs)[id].log[k].number != e.number
      ensures jobs == if ok then old(jobs)[id := old(jobs)[id].(log := old(jobs)[id].log + [e])] else old(jobs)
    {
      if id !in jobs || e.number < 1 { return false; }
      var log := jobs[id].log;
      for i := 0 to |log|
        invariant jobs == old(jobs)
        invariant forall k :: 0 <= k < i ==> log[k].number != e.number
      {
        if log[i].number == e.number {
          assert log[i] in log;
          return false;
        }
      }
      jobs := jobs[id := jobs[id].(log := log + [e])];
      return true;
    }

    method StreamEvents(id: nat, from: nat, now: int) returns (rows: seq<Event>)
      ensures rows == if id in jobs && now <= jobs[id].expiresAt then After(jobs[id].log, from) else []
    {
      rows := [];
      if !Has(id, now) { return; }
      var log := jobs[id].log;
      for i := 0 to |log|
        invariant rows == After(log[..i], from)
      {
        AfterOneMore(log, i, from);
        if log[i].number > from { rows := rows + [log[i]]; }
      }
      assert log[..|log|] == log;
    }

    /** Events go with their job. */
    method PurgeExpired(now: int) returns (deleted: nat)
      modifies this
      ensures jobs == map id | id in old(jobs) && now <= old(jobs)[id].expiresAt :: old(jobs)[id]
      ensures deleted == |old(jobs)| - |jobs|
    {
      var expired := set id | id in jobs && jobs[id].expiresAt < now;
      var kept := jobs.Keys - expired;
      assert jobs.Keys == kept + expired && kept !! expired;
      jobs := jobs - expired;
      assert jobs.Keys == kept;
      deleted := |expired|;
    }
  }

  lemma {:induction false} AfterConcat(a: seq<Event>, b: seq<Event>, from: nat)
    ensures After(a + b, from) == After(a, from) + After(b, from)
  {
    if a == [] {
      assert a + b == b;
    } else {
      assert (a + b)[0] == a[0] && (a + b)[1..] == a[1..] + b;
      AfterConcat(a[1..], b, from);
    }
  }

  lemma AfterOneMore(log: seq<Event>, i: nat, from: nat)
    requires i < |log|
    ensures After(log[..i + 1], from) == After(log[..i], from) + if log[i].number > from then [log[i]] else []
  {
    assert log[..i + 1] == log[..i] + [log[i]];
    AfterConcat(log[..i], [log[i]], from);
  }
}
