/** Search jobs as the database holds them: one guarded status row and an append-only, numbered event log. */
module Jobs {
  import opened Connectors
  import opened Quorum
  import opened Text
  import opened Wrappers

  datatype Status = Queued | Running | Done | Failed

  /** The hash-only payloads, reduced to what readers of the log use. */
  datatype Body =
    | JobStarted
    | ConnectorStarted(connector: string)
    | ConnectorResult(outcome: Outcome)
    | Summary(verdict: Verdict)
    | JobDone(verdict: Verdict)
    | JobFailed

  datatype Event = Event(number: nat, body: Body)

  datatype Job = Job(plan: seq<string>, status: Status, expiresAt: int, log: seq<Event>)

  predicate Live(j: Job, now: int) { now <= j.expiresAt }

  predicate Terminal(e: Event) { e.body.JobDone? || e.body.JobFailed? }

  // ---- The guarded updates: no result means the guard refused ----

  function MarkRunning(j: Job, now: int): Option<Job> {
    if j.status == Queued && Live(j, now) then Some(j.(status := Status.Running)) else None
  }

  /** Connector names are trimmed before they are looked up. */
  predicate Registered(names: seq<string>) {
    forall name :: name in names ==> Trim(name) in ALLOWED_CONNECTOR_IDS
  }

  function MarkDone(j: Job, confidence: int, connectorsRun: seq<string>, elapsed: int, now: int): Option<Job> {
    if 0 <= confidence <= 100 && elapsed >= 0 && Registered(connectorsRun)
       && j.status in {Queued, Status.Running} && Live(j, now)
    then Some(j.(status := Done))
    else None
  }

  function MarkFailed(j: Job, now: int): Option<Job> {
    if j.status in {Queued, Status.Running} && Live(j, now) then Some(j.(status := Failed)) else None
  }

  const MAX_STRING := 256

  /** What job creation sees to: the row's plan holds registered names only. */
  predicate Controlled(plan: seq<string>) {
    forall connector :: connector in plan ==> connector in ALLOWED_CONNECTOR_IDS
  }

  predicate Planned(plan: seq<string>, connector: string) {
    |connector| <= MAX_STRING && Trim(connector) in ALLOWED_CONNECTOR_IDS && Trim(connector) in plan
  }

  /** The payload check: an event may only name a planned connector. */
  predicate Admissible(plan: seq<string>, body: Body) {
    match body
    case ConnectorStarted(connector) => Planned(plan, connector)
    case ConnectorResult(outcome) => Planned(plan, outcome.connector) && 0 <= outcome.score <= 100
    case Summary(verdict) => 0 <= verdict.confidence <= 100
    case JobDone(verdict) => 0 <= verdict.confidence <= 100
    case _ => true
  }

  function TrimmedOutcome(r: Outcome): Outcome { r.(connector := Trim(r.connector)) }

  /** What the payload check passes on: the name it has looked up, without the blanks around it. */
  function Sanitized(body: Body): Body {
    match body
    case ConnectorStarted(connector) => ConnectorStarted(Trim(connector))
    case ConnectorResult(outcome) => ConnectorResult(TrimmedOutcome(outcome))
    case _ => body
  }

  /** The insert relies on the unique (job, number) constraint alone; it does not look at the expiry again. */
  function Insert(j: Job, e: Event): Option<Job> {
    if e.number >= 1 && forall logged :: logged in j.log ==> logged.number != e.number
    then Some(j.(log := j.log + [e]))
    else None
  }

  /** The events with a higher number, in the order of the log. */
  function After(log: seq<Event>, from: nat): (rows: seq<Event>)
    ensures |log| == 1 ==> rows == if log[0].number > from then log else []
  {
    if log == [] then []
    else if log[0].number > from then [log[0]] + After(log[1..], from)
    else After(log[1..], from)
  }

  /** The log is numbered without gaps from `base + 1`. */
  predicate NumberedFrom(log: seq<Event>, base: nat) {
    forall i :: 0 <= i < |log| ==> log[i].number == base + i + 1
  }

  predicate Numbered(log: seq<Event>) { NumberedFrom(log, 0) }

  lemma {:induction false} AfterIsSuffix(log: seq<Event>, base: nat, from: nat)
    requires NumberedFrom(log, base)
    ensures After(log, from) == if from <= base then log else if from - base <= |log| then log[from - base..] else []
  {
    if log != [] {
      assert log[0].number == base + 1;
      assert NumberedFrom(log[1..], base + 1) by {
        forall i | 0 <= i < |log[1..]| ensures log[1..][i].number == base + 1 + i + 1 {
          assert log[1..][i] == log[i + 1];
        }
      }
      AfterIsSuffix(log[1..], base + 1, from);
    }
  }

  // ---- The script a worker follows ----

  /** The body at position `n` of a complete log: for every planned connector its start and its result, framed by the
      start of the job, the summary and the end. */
  function Script(plan: seq<string>, results: seq<Outcome>, n: nat): Body
    requires n <= 2 * |plan| + 2
    requires 0 < n <= 2 * |plan| && n % 2 == 0 ==> n / 2 <= |results|
  {
    if n == 0 then JobStarted
    else if n == 2 * |plan| + 1 then Body.Summary(Decide(results))
    else if n == 2 * |plan| + 2 then JobDone(Decide(results))
    else if n % 2 == 1 then ConnectorStarted(Trim(plan[n / 2]))
    else ConnectorResult(TrimmedOutcome(results[n / 2 - 1]))
  }

  predicate ScriptedAt(plan: seq<string>, results: seq<Outcome>, log: seq<Event>, n: nat)
    requires n < |log|
  {
    && n <= 2 * |plan| + 2
    && (0 < n <= 2 * |plan| && n % 2 == 0 ==> n / 2 <= |results|)
    && (n > 2 * |plan| ==> |results| == |plan|)
    && log[n] == Event(n + 1, Script(plan, results, n))
  }

  /** The log is a prefix of the script for these results. */
  predicate Scripted(plan: seq<string>, results: seq<Outcome>, log: seq<Event>) {
    forall n :: 0 <= n < |log| ==> ScriptedAt(plan, results, log, n)
  }

  function FullLength(plan: seq<string>): nat { 2 * |plan| + 3 }

  lemma ScriptedIsNumbered(plan: seq<string>, results: seq<Outcome>, log: seq<Event>)
    requires Scripted(plan, results, log)
    ensures Numbered(log) && |log| <= FullLength(plan)
  {
    forall i | 0 <= i < |log| ensures log[i].number == i + 1 {
      assert ScriptedAt(plan, results, log, i);
    }
    if log != [] {
      assert ScriptedAt(plan, results, log, |log| - 1);
    }
  }

  /** Only the last event of a complete log is terminal. */
  lemma OnlyTheEndIsTerminal(plan: seq<string>, results: seq<Outcome>, log: seq<Event>, n: nat)
    requires Scripted(plan, results, log) && n < |log|
    ensures Terminal(log[n]) <==> n == FullLength(plan) - 1
    ensures !log[n].body.JobFailed?
  {
    assert ScriptedAt(plan, results, log, n);
  }

  /** The events of a log, one after the other: the start of the job, for every planned connector its start and what it
      came back with, under their trimmed names, the summary and the end, numbered from 1. */
  ghost predicate TellsItAll(plan: seq<string>, results: seq<Outcome>, log: seq<Event>) {
    var k := |plan|;
    && (forall n :: 0 <= n < |log| ==> log[n].number == n + 1)
    && (0 < |log| ==> log[0].body == JobStarted)
    && (forall i :: 0 <= i < k && 2 * i + 1 < |log| ==> log[2 * i + 1].body == ConnectorStarted(Trim(plan[i])))
    && (forall i :: 0 <= i < k && 2 * i + 2 < |log| ==>
          && i < |results|
          && var r := results[i];
             log[2 * i + 2].body == ConnectorResult(Outcome(Trim(r.connector), r.status, r.score)))
    && (2 * k + 1 < |log| ==> |results| == k && log[2 * k + 1].body == Body.Summary(Decide(results)))
    && (2 * k + 2 < |log| ==> log[2 * k + 2].body == JobDone(Decide(results)))
    && |log| <= 2 * k + 3
  }

  lemma ScriptTellsItAll(plan: seq<string>, results: seq<Outcome>, log: seq<Event>)
    requires Scripted(plan, results, log)
    ensures TellsItAll(plan, results, log)
  {
    ScriptedIsNumbered(plan, results, log);
    if 0 < |log| { assert ScriptedAt(plan, results, log, 0); }
    forall i | 0 <= i < |plan| && 2 * i + 1 < |log|
      ensures log[2 * i + 1].body == ConnectorStarted(Trim(plan[i]))
    {
      assert ScriptedAt(plan, results, log, 2 * i + 1);
    }
    forall i | 0 <= i < |plan| && 2 * i + 2 < |log|
      ensures i < |results| && log[2 * i + 2].body == ConnectorResult(TrimmedOutcome(results[i]))
    {
      assert ScriptedAt(plan, results, log, 2 * i + 2);
    }
    if 2 * |plan| + 1 < |log| { assert ScriptedAt(plan, results, log, 2 * |plan| + 1); }
    if 2 * |plan| + 2 < |log| { assert ScriptedAt(plan, results, log, 2 * |plan| + 2); }
  }

  lemma ScriptedAppend(plan: seq<string>, results: seq<Outcome>, log: seq<Event>, e: Event)
    requires Scripted(plan, results, log) && ScriptedAt(plan, results, log + [e], |log|)
    ensures Scripted(plan, results, log + [e])
  {
    forall n | 0 <= n < |log + [e]| ensures ScriptedAt(plan, results, log + [e], n) {
      if n < |log| {
        assert ScriptedAt(plan, results, log, n) && (log + [e])[n] == log[n];
      }
    }
  }

  /** One more result, not yet logged, leaves the script so far as it is. */
  lemma ScriptedMoreResults(plan: seq<string>, results: seq<Outcome>, log: seq<Event>, r: Outcome)
    requires Scripted(plan, results, log) && |log| <= 2 * |plan|
    ensures Scripted(plan, results + [r], log)
  {
    forall n | 0 <= n < |log| ensures ScriptedAt(plan, results + [r], log, n) {
      assert ScriptedAt(plan, results, log, n);
    }
  }
}
