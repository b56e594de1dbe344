/** The v2 search page: it folds the events delivered to it into the state it shows. */
module SearchView {
  import opened Connectors
  import opened Integers
  import opened Jobs
  import opened JobWorker
  import opened Quorum
  import SearchJob
  import opened Sequences
  import opened Wrappers

  /** What the page loads about the job before it opens the stream. */
  datatype Snapshot = Snapshot(planned: seq<string>, status: Status, verdict: Option<Verdict>)

  datatype Counts = Counts(breaches: nat, stealers: nat, checked: nat, found: nat, likely: nat)

  /** `names` and `byName` are `connectorResultsByName` in the order a JavaScript object keeps keys that are not
      integers, as no connector's name is one: that of first insertion. `results` is the list of its values. */
  datatype Table = Table(names: seq<string>, byName: map<string, Outcome>, results: seq<Outcome>, counts: Counts)

  datatype View = View(
    planned: seq<string>, started: seq<string>, table: Table,
    progress: nat, lastSeq: nat, seen: seq<Event>, status: Status, verdict: Option<Verdict>)

  predicate IsBreachHit(r: Outcome) { "oathnet:breach" <= r.connector && r.status == Found }
  predicate IsStealerHit(r: Outcome) { "oathnet:stealer" <= r.connector && r.status == Found }
  predicate IsChecked(r: Outcome) { "sherlock:" <= r.connector }
  predicate IsProfileFound(r: Outcome) { "sherlock:" <= r.connector && r.status == Found }
  predicate IsProfileLikely(r: Outcome) { "sherlock:" <= r.connector && r.status == Likely }

  function Census(results: seq<Outcome>): Counts {
    Counts(Count(results, IsBreachHit), Count(results, IsStealerHit), Count(results, IsChecked),
           Count(results, IsProfileFound), Count(results, IsProfileLikely))
  }

  function Values(names: seq<string>, byName: map<string, Outcome>): seq<Outcome> {
    if names == [] then []
    else
      var before, last := Values(names[..|names| - 1], byName), names[|names| - 1];
      if last in byName then before + [byName[last]] else before
  }

  /** `n / d` rounded to the nearest integer, halves up. */
  function Rounded(n: nat, d: nat): nat
    requires d > 0
  {
    (2 * n + d) / (2 * d)
  }

  /** `share` of 85 is the whole number nearest to `completed / planned` of 85, halves up. */
  predicate IsNearestShare(share: nat, completed: nat, planned: nat) {
    2 * planned * share <= 170 * completed + planned < 2 * planned * (share + 1)
  }

  lemma RoundedIsNearest(completed: nat, planned: nat)
    requires planned > 0
    ensures IsNearestShare(Rounded(85 * completed, planned), completed, planned)
  {
    var whole, unit := 170 * completed + planned, 2 * planned;
    assert unit * (whole / unit) <= whole < unit * (whole / unit + 1);
  }

  function RunningPct(planned: nat, completed: nat): nat {
    if planned == 0 then 15 else Min(95, 10 + Rounded(85 * completed, planned))
  }

  function Loaded(s: Snapshot): View {
    View(s.planned, [], Table([], map[], [], Census([])), 8, 0, [], s.status, s.verdict)
  }

  function Remembered(v: View, e: Event): View {
    v.(lastSeq := Max(v.lastSeq, e.number), seen := v.seen + [e])
  }

  function Stored(t: Table, r: Outcome): Table {
    if r.connector == "" then t
    else
      var names := if r.connector in t.byName then t.names else t.names + [r.connector];
      var byName := t.byName[r.connector := r];
      Table(names, byName, Values(names, byName), Census(Values(names, byName)))
  }

  function Shown(v: View, e: Event): View {
    var v := Remembered(v, e);
    match e.body
    case JobStarted => v.(progress := 10)
    case ConnectorStarted(connector) =>
      if connector != "" && connector !in v.started then v.(started := v.started + [connector]) else v
    case ConnectorResult(outcome) =>
      var table := Stored(v.table, outcome);
      v.(table := table, progress := RunningPct(|v.planned|, |table.results|))
    case Summary(verdict) => v.(verdict := Some(verdict), progress := 98)
    case JobDone(_) => v.(status := Done, progress := 100)
    case JobFailed => v.(status := Failed)
  }

  function Fold(s: Snapshot, log: seq<Event>): View {
    if log == [] then Loaded(s) else Shown(Fold(s, log[..|log| - 1]), log[|log| - 1])
  }

  // ---- The page's own code ----

  lemma CensusOneMore(results: seq<Outcome>, i: nat)
    requires i < |results|
    ensures var before, r := Census(results[..i]), results[i];
            Census(results[..i + 1]) == Counts(
              before.breaches + (if IsBreachHit(r) then 1 else 0), before.stealers + (if IsStealerHit(r) then 1 else 0),
              before.checked + (if IsChecked(r) then 1 else 0), before.found + (if IsProfileFound(r) then 1 else 0),
              before.likely + (if IsProfileLikely(r) then 1 else 0))
  {
    assert results[..i + 1] == results[..i] + [results[i]];
    CountConcat(results[..i], [results[i]], IsBreachHit);
    CountConcat(results[..i], [results[i]], IsStealerHit);
    CountConcat(results[..i], [results[i]], IsChecked);
    CountConcat(results[..i], [results[i]], IsProfileFound);
    CountConcat(results[..i], [results[i]], IsProfileLikely);
  }

  class Page {
    var planned: seq<string>
    var started: seq<string>
    var names: seq<string>
    var byName: map<string, Outcome>
    var results: seq<Outcome>
    var counts: Counts
    var progress: nat
    var lastSeq: nat
    var seen: seq<Event>
    var status: Status
    var verdict: Option<Verdict>

    ghost function Abs(): View
      reads this
    {
      View(planned, started, Table(names, byName, results, counts), progress, lastSeq, seen, status, verdict)
    }

    constructor (s: Snapshot)
      ensures Abs() == Loaded(s)
      ensures Abs()
           == View(s.planned, [], Table([], map[], [], Counts(0, 0, 0, 0, 0)), 8, 0, [], s.status, s.verdict)
    {
      planned, started, names, byName, results := s.planned, [], [], map[], [];
      counts, progress, lastSeq, seen := Counts(0, 0, 0, 0, 0), 8, 0, [];
      status, verdict := s.status, s.verdict;
    }

    method RebuildLegacyAggregates()
      modifies this`counts
      ensures counts == Census(results)
    {
      var breaches, stealers, checked, found, likely := 0, 0, 0, 0, 0;
      for i := 0 to |results|
        invariant Counts(breaches, stealers, checked, found, likely) == Census(results[..i])
      {
        CensusOneMore(results, i);
        var r := results[i];
        if "oathnet:breach" <= r.connector && r.status == Found { breaches := breaches + 1; }
        if "oathnet:stealer" <= r.connector && r.status == Found { stealers := stealers + 1; }
        if "sherlock:" <= r.connector {
          checked := checked + 1;
          if r.status == Found { found := found + 1; }
          if r.status == Likely { likely := likely + 1; }
        }
      }
      assert results[..|results|] == results;
      counts := Counts(breaches, stealers, checked, found, likely);
    }

    method StoreConnectorResult(r: Outcome)
      modifies this`names, this`byName, this`results, this`counts
      ensures Abs().table == Stored(old(Abs().table), r)
      ensures r.connector == "" ==> Abs() == old(Abs())
      ensures r.connector != "" ==>
                && byName == old(byName)[r.connector := r]
                && names == old(names) + (if r.connector in old(byName) then [] else [r.connector])
    {
      if r.connector == "" { return; }
      if r.connector !in byName { names := names + [r.connector]; }
      byName := byName[r.connector := r];
      var ordered, values := names, [];
      for i := 0 to |ordered|
        invariant values == Values(ordered[..i], byName)
      {
        assert ordered[..i + 1][..i] == ordered[..i];
        if ordered[i] in byName { values := values + [byName[ordered[i]]]; }
      }
      assert ordered[..|ordered|] == ordered;
      results := values;
      RebuildLegacyAggregates();
    }

    method UpdateProgress()
      modifies this`progress
      ensures progress == RunningPct(|planned|, |results|)
      ensures |planned| == 0 ==> progress == 15
      ensures |planned| > 0 ==>
                exists share: nat :: IsNearestShare(share, |results|, |planned|)
                                     && progress == if share > 85 then 95 else 10 + share
    {
      if |planned| > 0 { RoundedIsNearest(|results|, |planned|); }
      if |planned| == 0 {
        progress := 15;
      } else {
        progress := Min(95, 10 + Rounded(85 * |results|, |planned|));
      }
    }

    method RememberEvent(e: Event)
      modifies this`lastSeq, this`seen
      ensures Abs() == Remembered(old(Abs()), e)
      ensures lastSeq == (if e.number > old(lastSeq) then e.number else old(lastSeq)) && seen == old(seen) + [e]
    {
      lastSeq := Max(lastSeq, e.number);
      seen := seen + [e];
    }

    /** `false` stands for the exception that reports a failed job. */
    method HandleEvent(e: Event) returns (ok: bool)
      modifies this
      ensures Abs() == Shown(old(Abs()), e)
      ensures ok <==> !e.body.JobFailed?
      ensures lastSeq == (if e.number > old(lastSeq) then e.number else old(lastSeq)) && seen == old(seen) + [e]
      ensures e.body.JobStarted? ==> progress == 10
      ensures e.body.Summary? ==> progress == 98 && verdict == Some(e.body.verdict)
      ensures e.body.JobDone? ==> progress == 100 && status == Done
      ensures e.body.JobFailed? ==> progress == old(progress) && status == Failed
      ensures !e.body.Summary? ==> verdict == old(verdict)
      ensures !e.body.JobDone? && !e.body.JobFailed? ==> status == old(status)
      ensures e.body.ConnectorStarted? ==>
                var name := e.body.connector;
                && progress == old(progress)
                && started == old(started) + if name == "" || name in old(started) then [] else [name]
      ensures !e.body.ConnectorStarted? ==> started == old(started)
      ensures !e.body.ConnectorResult? ==> Abs().table == old(Abs().table)
      ensures planned == old(planned)
    {
      RememberEvent(e);
      match e.body {
        case JobStarted => progress := 10;
        case ConnectorStarted(connector) =>
          if connector != "" && connector !in started { started := started + [connector]; }
        case ConnectorResult(outcome) =>
          StoreConnectorResult(outcome);
          UpdateProgress();
        case Summary(v) => verdict, progress := Some(v), 98;
        case JobDone(_) => status, progress := Done, 100;
        case JobFailed =>
          status := Failed;
          return false;
      }
      return true;
    }
  }

  // ---- What the page shows is what the log says ----

  predicate HasName(r: Outcome) { r.connector != "" }

  /** The results a log reports under a name. */
  function NamedResults(log: seq<Event>): seq<Outcome> { Filter(LoggedResults(log), HasName) }

  predicate IsLatest(results: seq<Outcome>, name: string, r: Outcome) {
    exists i :: 0 <= i < |results| && results[i] == r && r.connector == name
                && forall k :: i < k < |results| ==> results[k].connector != name
  }

  predicate Distinct(names: seq<string>) {
    forall i, k :: 0 <= i < k < |names| ==> names[i] != names[k]
  }

  /** One entry for every connector reported so far, in the order of first report, each holding the latest result. */
  ghost predicate Mirrors(t: Table, reported: seq<Outcome>) {
    && t.names == FirstOccurrences(reported) && Distinct(t.names)
    && (forall name :: name in t.names <==> name in t.byName)
    && (forall name :: name in t.byName ==> IsLatest(reported, name, t.byName[name]))
    && t.results == Values(t.names, t.byName) && t.counts == Census(t.results)
  }

  lemma LatestAfter(reported: seq<Outcome>, r: Outcome, name: string, latest: Outcome)
    requires name == r.connector ==> latest == r
    requires name != r.connector ==> IsLatest(reported, name, latest)
    ensures IsLatest(reported + [r], name, latest)
  {
    var more := reported + [r];
    if name == r.connector {
      assert more[|reported|] == r;
    } else {
      var i :| 0 <= i < |reported| && reported[i] == latest && latest.connector == name
               && forall k :: i < k < |reported| ==> reported[k].connector != name;
      assert more[i] == latest;
    }
  }

  lemma StoredMirrors(t: Table, reported: seq<Outcome>, r: Outcome)
    requires Mirrors(t, reported) && HasName(r)
    ensures Mirrors(Stored(t, r), reported + [r])
  {
    var t', more := Stored(t, r), reported + [r];
    assert more[..|more| - 1] == reported;
    forall name | name in t'.byName ensures IsLatest(more, name, t'.byName[name]) {
      LatestAfter(reported, r, name, t'.byName[name]);
    }
  }

  lemma ShownTable(v: View, e: Event)
    ensures Shown(v, e).planned == v.planned
    ensures Shown(v, e).table == if e.body.ConnectorResult? then Stored(v.table, e.body.outcome) else v.table
  {
  }

  lemma NamedResultsSoFar(log: seq<Event>)
    requires log != []
    ensures var before, body := NamedResults(log[..|log| - 1]), log[|log| - 1].body;
            NamedResults(log)
            == if body.ConnectorResult? && HasName(body.outcome) then before + [body.outcome] else before
  {
    var body := log[|log| - 1].body;
    if body.ConnectorResult? {
      FilterConcat(LoggedResults(log[..|log| - 1]), [body.outcome], HasName);
    }
  }

  /** Whatever the log, the page holds exactly one entry per reported connector: the latest result. */
  lemma {:induction false} PageMirrorsLog(s: Snapshot, log: seq<Event>)
    ensures Mirrors(Fold(s, log).table, NamedResults(log))
    ensures Fold(s, log).planned == s.planned
  {
    if log != [] {
      var before, e := log[..|log| - 1], log[|log| - 1];
      PageMirrorsLog(s, before);
      ShownTable(Fold(s, before), e);
      NamedResultsSoFar(log);
      if e.body.ConnectorResult? && HasName(e.body.outcome) {
        StoredMirrors(Fold(s, before).table, NamedResults(before), e.body.outcome);
      }
    }
  }

  /** The connectors whose entry satisfies `p`. */
  function Holders(names: seq<string>, byName: map<string, Outcome>, p: Outcome -> bool): set<string> {
    set name | name in names && name in byName && p(byName[name])
  }

  lemma HoldersOneMore(before: seq<string>, last: string, byName: map<string, Outcome>, p: Outcome -> bool)
    requires last in byName && last !in before
    ensures |Holders(before + [last], byName, p)| == |Holders(before, byName, p)| + if p(byName[last]) then 1 else 0
  {
    var counted := Holders(before, byName, p);
    assert Holders(before + [last], byName, p) == if p(byName[last]) then counted + {last} else counted;
  }

  /** Counting list entries counts connectors. */
  lemma {:induction false} CountIsCardinality(names: seq<string>, byName: map<string, Outcome>, p: Outcome -> bool)
    requires Distinct(names) && forall name :: name in names ==> name in byName
    ensures Count(Values(names, byName), p) == |Holders(names, byName, p)|
    ensures |Values(names, byName)| == |names|
  {
    if names == [] {
      assert Holders(names, byName, p) == {};
    } else {
      var before, last := names[..|names| - 1], names[|names| - 1];
      CountIsCardinality(before, byName, p);
      CountConcat(Values(before, byName), [byName[last]], p);
      assert names == before + [last];
      HoldersOneMore(before, last, byName, p);
    }
  }

  /** The counters are the numbers of connectors whose latest result qualifies. */
  lemma CountersCountConnectors(s: Snapshot, log: seq<Event>)
    ensures var t := Fold(s, log).table;
            && t.names == FirstOccurrences(NamedResults(log))
            && (forall name :: name in t.names ==>
                  name in t.byName && IsLatest(NamedResults(log), name, t.byName[name]))
            && t.counts == Counts(
                 |Holders(t.names, t.byName, IsBreachHit)|, |Holders(t.names, t.byName, IsStealerHit)|,
                 |Holders(t.names, t.byName, IsChecked)|, |Holders(t.names, t.byName, IsProfileFound)|,
                 |Holders(t.names, t.byName, IsProfileLikely)|)
  {
    PageMirrorsLog(s, log);
    var t := Fold(s, log).table;
    CountIsCardinality(t.names, t.byName, IsBreachHit);
    CountIsCardinality(t.names, t.byName, IsStealerHit);
    CountIsCardinality(t.names, t.byName, IsChecked);
    CountIsCardinality(t.names, t.byName, IsProfileFound);
    CountIsCardinality(t.names, t.byName, IsProfileLikely);
  }

  lemma ShownIsRemembered(v: View, e: Event)
    ensures Shown(v, e).seen == v.seen + [e] && Shown(v, e).lastSeq == Max(v.lastSeq, e.number)
  {
  }

  /** Events arrive numbered from 1, so the page has seen as many as its last number says. */
  lemma {:induction false} PageRemembersLog(s: Snapshot, log: seq<Event>)
    requires Numbered(log)
    ensures Fold(s, log).seen == log && Fold(s, log).lastSeq == |log|
  {
    if log != [] {
      var before, e := log[..|log| - 1], log[|log| - 1];
      PageRemembersLog(s, before);
      ShownIsRemembered(Fold(s, before), e);
      assert e.number == |log|;
    }
  }

  // ---- Progress ----

  lemma LargerQuotient(x: nat, y: nat, d: nat)
    requires d > 0 && x / d > y / d
    ensures x > y
  {
    assert d * (x / d) >= d * (y / d + 1) == d * (y / d) + d;
  }

  lemma RoundedIsMonotone(a: nat, b: nat, d: nat)
    requires a <= b && d > 0
    ensures Rounded(a, d) <= Rounded(b, d)
  {
    if Rounded(a, d) > Rounded(b, d) {
      LargerQuotient(2 * a + d, 2 * b + d, 2 * d);
    }
  }

  lemma RunningPctIsMonotone(planned: nat, fewer: nat, more: nat)
    requires fewer <= more
    ensures RunningPct(planned, fewer) <= RunningPct(planned, more) <= 95
    ensures RunningPct(planned, fewer) >= 10
  {
    if planned > 0 {
      RoundedIsMonotone(85 * fewer, 85 * more, planned);
    }
  }

  /** The progress while a scripted job runs, from how much of the log has arrived and how many connectors it
      reports. */
  function Expected(planned: nat, arrived: nat, reported: nat): nat {
    if arrived == 0 then 8
    else if arrived == 2 * planned + 3 then 100
    else if arrived == 2 * planned + 2 then 98
    else if arrived <= 2 then 10
    else RunningPct(planned, reported)
  }

  lemma ShownProgress(v: View, plan: seq<string>, results: seq<Outcome>, log: seq<Event>, n: nat)
    requires n < |log| && ScriptedAt(plan, results, log, n) && v.planned == plan
    requires v.progress == Expected(|plan|, n, |v.table.results|)
    ensures var w := Shown(v, log[n]); w.progress == Expected(|plan|, n + 1, |w.table.results|)
  {
  }

  lemma ScriptedPrefix(plan: seq<string>, results: seq<Outcome>, log: seq<Event>, n: nat)
    requires Scripted(plan, results, log) && n <= |log|
    ensures Scripted(plan, results, log[..n])
  {
    forall i | 0 <= i < n ensures ScriptedAt(plan, results, log[..n], i) {
      assert ScriptedAt(plan, results, log, i);
    }
  }

  lemma {:induction false} ProgressAt(s: Snapshot, results: seq<Outcome>, log: seq<Event>)
    requires Scripted(s.planned, results, log)
    ensures Fold(s, log).progress == Expected(|s.planned|, |log|, |Fold(s, log).table.results|)
  {
    if log != [] {
      var n := |log| - 1;
      ScriptedPrefix(s.planned, results, log, n);
      ProgressAt(s, results, log[..n]);
      PageMirrorsLog(s, log[..n]);
      assert ScriptedAt(s.planned, results, log, n);
      ShownProgress(Fold(s, log[..n]), s.planned, results, log, n);
    }
  }

  lemma StoredNeverForgets(t: Table, reported: seq<Outcome>, r: Outcome)
    requires Mirrors(t, reported)
    ensures |t.results| <= |Stored(t, r).results|
  {
    CountIsCardinality(t.names, t.byName, IsFound);
    if HasName(r) {
      StoredMirrors(t, reported, r);
      CountIsCardinality(Stored(t, r).names, Stored(t, r).byName, IsFound);
    }
  }

  lemma {:induction false} TableNeverForgets(s: Snapshot, log: seq<Event>, n: nat)
    requires n <= |log|
    ensures |Fold(s, log[..n]).table.results| <= |Fold(s, log).table.results|
    decreases |log|
  {
    if n == |log| {
      assert log[..n] == log;
    } else {
      var before, e := log[..|log| - 1], log[|log| - 1];
      TableNeverForgets(s, before, n);
      assert before[..n] == log[..n];
      PageMirrorsLog(s, before);
      ShownTable(Fold(s, before), e);
      if e.body.ConnectorResult? {
        StoredNeverForgets(Fold(s, before).table, NamedResults(before), e.body.outcome);
      }
    }
  }

  /** Over the log of a job the displayed progress never decreases: from 8, by way of 10 and at most 95, to 98 with the
      summary and 100 at the end, and only there. */
  lemma ProgressNeverDecreases(s: Snapshot, results: seq<Outcome>, log: seq<Event>, n: nat)
    requires Scripted(s.planned, results, log) && n <= |log|
    ensures Fold(s, log[..n]).progress <= Fold(s, log).progress
    ensures Fold(s, log).progress == 98 <==> |log| == 2 * |s.planned| + 2
    ensures Fold(s, log).progress == 100 <==> |log| == 2 * |s.planned| + 3
    ensures 0 < |log| <= 2 * |s.planned| + 1 ==> 10 <= Fold(s, log).progress <= 95
  {
    ScriptedPrefix(s.planned, results, log, n);
    ProgressAt(s, results, log);
    ProgressAt(s, results, log[..n]);
    TableNeverForgets(s, log, n);
    ScriptedIsNumbered(s.planned, results, log);
    RunningPctIsMonotone(|s.planned|, |Fold(s, log[..n]).table.results|, |Fold(s, log).table.results|);
  }

  // ---- The page at the end of the whole protocol ----

  function PageOf(snapshot: Snapshot, s: SearchJob.State): View { Fold(snapshot, s.client.delivered) }

  lemma PageOfPrefix(plan: seq<string>, now: int, lifetime: nat, steps: seq<SearchJob.Step>, snapshot: Snapshot)
    requires Controlled(plan) && snapshot.planned == plan
    ensures var s := SearchJob.Run(SearchJob.Start(plan, now, lifetime), steps);
            && SearchJob.Inv(s) && s.world.job.plan == plan && Scripted(plan, s.world.results, s.client.delivered)
            && s.client.delivered <= s.world.job.log && |s.client.delivered| == s.client.lastSeq
  {
    var start := SearchJob.Start(plan, now, lifetime);
    var s := SearchJob.Run(start, steps);
    SearchJob.ReachableSatisfiesInv(plan, now, lifetime, steps);
    SearchJob.DeliveredGrows(start, steps);
    ScriptedPrefix(plan, s.world.results, s.world.job.log, s.client.lastSeq);
  }

  lemma PagesOfPrefixes(s: Snapshot, results: seq<Outcome>, log: seq<Event>, n: nat)
    requires Scripted(s.planned, results, log) && n <= |log|
    ensures var page, page' := Fold(s, log[..n]), Fold(s, log);
            page.lastSeq == n && page.seen == log[..n] && page'.seen == log && page.progress <= page'.progress
  {
    ScriptedPrefix(s.planned, results, log, n);
    ScriptedIsNumbered(s.planned, results, log[..n]);
    ScriptedIsNumbered(s.planned, results, log);
    PageRemembersLog(s, log[..n]);
    PageRemembersLog(s, log);
    ProgressNeverDecreases(s, results, log, n);
  }

  lemma LaterDeliversMore(plan: seq<string>, now: int, lifetime: nat, steps: seq<SearchJob.Step>,
                          more: seq<SearchJob.Step>, snapshot: Snapshot)
    requires Controlled(plan) && snapshot.planned == plan
    ensures var start := SearchJob.Start(plan, now, lifetime);
            var s, s' := SearchJob.Run(start, steps), SearchJob.Run(start, steps + more);
            var n := s.client.lastSeq;
            && n <= |s'.client.delivered| && Scripted(plan, s'.world.results, s'.client.delivered)
            && s.client.delivered == s'.client.delivered[..n] && s'.client.delivered <= s'.world.job.log
  {
    var start := SearchJob.Start(plan, now, lifetime);
    PageOfPrefix(plan, now, lifetime, steps, snapshot);
    PageOfPrefix(plan, now, lifetime, steps + more, snapshot);
    SearchJob.RunConcat(start, steps, more);
    SearchJob.DeliveredGrows(SearchJob.Run(start, steps), more);
  }

  /** Whatever happens to the connections, the page is a function of the log up to the last number seen, and of nothing
      else; as the run goes on it forgets no event and its progress never decreases. */
  lemma PageNeverGoesBack(plan: seq<string>, now: int, lifetime: nat, steps: seq<SearchJob.Step>,
                          more: seq<SearchJob.Step>, snapshot: Snapshot)
    requires Controlled(plan) && snapshot.planned == plan
    ensures var start := SearchJob.Start(plan, now, lifetime);
            var s, s' := SearchJob.Run(start, steps), SearchJob.Run(start, steps + more);
            var page, page' := PageOf(snapshot, s), PageOf(snapshot, s');
            && page.lastSeq == s.client.lastSeq <= |s'.world.job.log|
            && page == Fold(snapshot, s'.world.job.log[..page.lastSeq])
            && page.seen <= page'.seen && page.progress <= page'.progress
  {
    var start := SearchJob.Start(plan, now, lifetime);
    var s, s' := SearchJob.Run(start, steps), SearchJob.Run(start, steps + more);
    LaterDeliversMore(plan, now, lifetime, steps, more, snapshot);
    PagesOfPrefixes(snapshot, s'.world.results, s'.client.delivered, s.client.lastSeq);
    assert s'.client.delivered[..s.client.lastSeq] == s'.world.job.log[..s.client.lastSeq];
  }

  lemma {:induction false} VerdictShown(s: Snapshot, results: seq<Outcome>, log: seq<Event>)
    requires Scripted(s.planned, results, log) && |log| >= 2 * |s.planned| + 2
    ensures Fold(s, log).verdict == Some(Decide(results))
    ensures |log| == 2 * |s.planned| + 3 ==> Fold(s, log).status == Done
  {
    var n := |log| - 1;
    ScriptedIsNumbered(s.planned, results, log);
    assert ScriptedAt(s.planned, results, log, n);
    if n == 2 * |s.planned| + 2 {
      ScriptedPrefix(s.planned, results, log, n);
      VerdictShown(s, results, log[..n]);
    }
  }

  /** The page is complete exactly when the client is terminal; it then shows the verdict of the quorum rule on the
      results the job has logged, one table entry for each connector among them. */
  lemma CompletePageShowsVerdict(plan: seq<string>, now: int, lifetime: nat, steps: seq<SearchJob.Step>,
                                 snapshot: Snapshot)
    requires Controlled(plan) && snapshot.planned == plan
    ensures var s := SearchJob.Run(SearchJob.Start(plan, now, lifetime), steps);
            var page := PageOf(snapshot, s);
            && (page.progress == 100 <==> s.client.terminal)
            && (s.client.terminal ==>
                  && page.status == Done == s.world.job.status
                  && page.verdict == Some(Decide(LoggedResults(s.world.job.log)))
                  && page.table.names == FirstOccurrences(NamedResults(s.world.job.log)))
  {
    var s := SearchJob.Run(SearchJob.Start(plan, now, lifetime), steps);
    PageOfPrefix(plan, now, lifetime, steps, snapshot);
    ProgressNeverDecreases(snapshot, s.world.results, s.client.delivered, 0);
    if s.client.terminal {
      assert s.client.delivered == s.world.job.log;
      LogReportsResults(s.world, |s.world.job.log|);
      assert s.world.job.log[..|s.world.job.log|] == s.world.job.log;
      VerdictShown(snapshot, s.world.results, s.world.job.log);
      PageMirrorsLog(snapshot, s.world.job.log);
    }
  }
}
