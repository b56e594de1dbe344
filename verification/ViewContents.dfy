/** What the page shows after a log, in terms of the events in it. */
module ViewContents {
  import opened Connectors
  import opened Jobs
  import opened JobWorker
  import opened Quorum
  import opened SearchView
  import opened Wrappers

  // ---- Counters ----

  /** The connectors with this prefix whose latest result has this status, or any. */
  function Matching(byName: map<string, Outcome>, prefix: string, status: Option<ConnectorStatus>): set<string> {
    set name | name in byName && prefix <= name && (status.Some? ==> byName[name].status == status.value)
  }

  lemma HoldersMatch(t: Table, reported: seq<Outcome>, p: Outcome -> bool, prefix: string,
                     status: Option<ConnectorStatus>)
    requires Mirrors(t, reported)
    requires forall r :: p(r) <==> prefix <= r.connector && (status.Some? ==> r.status == status.value)
    ensures Holders(t.names, t.byName, p) == Matching(t.byName, prefix, status)
  {
    forall name | name in t.byName ensures t.byName[name].connector == name {
      assert IsLatest(reported, name, t.byName[name]);
    }
  }

  /** The five numbers: of the connectors reported so far, by prefix and by the status of the latest result. */
  lemma CountersByPrefix(s: Snapshot, log: seq<Event>)
    ensures var t := Fold(s, log).table;
            && t.counts.breaches == |Matching(t.byName, "oathnet:breach", Some(Found))|
            && t.counts.stealers == |Matching(t.byName, "oathnet:stealer", Some(Found))|
            && t.counts.checked == |Matching(t.byName, "sherlock:", None)|
            && t.counts.found == |Matching(t.byName, "sherlock:", Some(Found))|
            && t.counts.likely == |Matching(t.byName, "sherlock:", Some(Likely))|
  {
    PageMirrorsLog(s, log);
    CountersCountConnectors(s, log);
    var t, reported := Fold(s, log).table, NamedResults(log);
    HoldersMatch(t, reported, IsBreachHit, "oathnet:breach", Some(Found));
    HoldersMatch(t, reported, IsStealerHit, "oathnet:stealer", Some(Found));
    HoldersMatch(t, reported, IsChecked, "sherlock:", None);
    HoldersMatch(t, reported, IsProfileFound, "sherlock:", Some(Found));
    HoldersMatch(t, reported, IsProfileLikely, "sherlock:", Some(Likely));
  }

  // ---- The table ----

  /** `r` is the last result that the log reports under this name. */
  ghost predicate LastReported(log: seq<Event>, name: string, r: Outcome) {
    exists i :: LastReportedAt(log, name, r, i)
  }

  predicate LastReportedAt(log: seq<Event>, name: string, r: Outcome, i: int) {
    && 0 <= i < |log| && log[i].body == ConnectorResult(r) && r.connector == name
    && forall k :: i < k < |log| && log[k].body.ConnectorResult? ==> log[k].body.outcome.connector != name
  }

  lemma LastReportedAfter(before: seq<Event>, e: Event, name: string, r: Outcome)
    ensures LastReported(before + [e], name, r)
            <==> if e.body.ConnectorResult? && e.body.outcome.connector == name then r == e.body.outcome
                 else LastReported(before, name, r)
  {
    var log := before + [e];
    if i :| LastReportedAt(before, name, r, i) {
      if !(e.body.ConnectorResult? && e.body.outcome.connector == name) { assert LastReportedAt(log, name, r, i); }
    }
    if i :| LastReportedAt(log, name, r, i) {
      if i < |before| {
        assert log[i] == before[i] && log[|before|] == e;
        assert LastReportedAt(before, name, r, i) by {
          assert forall k :: i < k < |before| ==> log[k] == before[k];
        }
      }
    }
    if e.body.ConnectorResult? && e.body.outcome.connector == name && r == e.body.outcome {
      assert LastReportedAt(log, name, r, |before|);
    }
  }

  /** The table holds, for every name, the last result that the log reports under it, and nothing else; a result without
      a name is ignored. */
  lemma {:induction false} TableHoldsLastReported(s: Snapshot, log: seq<Event>, name: string, r: Outcome)
    ensures var byName := Fold(s, log).table.byName;
            name in byName && byName[name] == r <==> name != "" && LastReported(log, name, r)
    decreases |log|
  {
    if log != [] {
      var before, e := log[..|log| - 1], log[|log| - 1];
      assert log == before + [e];
      TableHoldsLastReported(s, before, name, r);
      ShownTable(Fold(s, before), e);
      LastReportedAfter(before, e, name, r);
    }
  }

  lemma {:induction false} ValuesFollowNames(names: seq<string>, byName: map<string, Outcome>)
    requires forall name :: name in names ==> name in byName
    ensures |Values(names, byName)| == |names|
    ensures forall i :: 0 <= i < |names| ==> Values(names, byName)[i] == byName[names[i]]
  {
    if names != [] {
      ValuesFollowNames(names[..|names| - 1], byName);
    }
  }

  /** One entry for each name, in the order of the names. */
  ghost predicate InOrder(t: Table) {
    && Distinct(t.names) && (forall name :: name in t.byName <==> name in t.names)
    && |t.results| == |t.names| && forall i :: 0 <= i < |t.names| ==> t.results[i] == t.byName[t.names[i]]
  }

  lemma ListFollowsNames(s: Snapshot, log: seq<Event>)
    ensures InOrder(Fold(s, log).table)
  {
    PageMirrorsLog(s, log);
    var t := Fold(s, log).table;
    ValuesFollowNames(t.names, t.byName);
  }

  /** The list holds one entry for each name, in the order in which the names were first reported: what a longer log
      adds comes behind what was there. */
  lemma {:induction false} ListFollowsFirstReports(s: Snapshot, log: seq<Event>, n: nat)
    requires n <= |log|
    ensures Fold(s, log[..n]).table.names <= Fold(s, log).table.names && InOrder(Fold(s, log).table)
    decreases |log|
  {
    ListFollowsNames(s, log);
    if n < |log| {
      var before, e := log[..|log| - 1], log[|log| - 1];
      assert before[..n] == log[..n];
      ListFollowsFirstReports(s, before, n);
      ShownTable(Fold(s, before), e);
    } else {
      assert log[..n] == log;
    }
  }

  // ---- The connectors that have started ----

  /** The page lists every connector whose start was announced, once, in the order of the first announcements: what a
      longer log adds comes behind what was there. */
  lemma {:induction false} StartedAreAnnounced(s: Snapshot, log: seq<Event>, n: nat)
    requires n <= |log|
    ensures var started, early := Fold(s, log).started, Fold(s, log[..n]).started;
            && Distinct(started) && early <= started
            && (forall name :: name in started <==>
                  name != "" && exists i :: 0 <= i < |log| && log[i].body == ConnectorStarted(name))
    decreases |log|
  {
    if n == |log| { assert log[..n] == log; }
    if log != [] {
      var before, e := log[..|log| - 1], log[|log| - 1];
      StartedAreAnnounced(s, before, if n < |log| then n else |log| - 1);
      if n < |log| { assert before[..n] == log[..n]; }
      ShownStarted(Fold(s, before), e);
      forall name ensures Announced(log, name) <==> Announced(before, name) || e.body == ConnectorStarted(name) {
        AnnouncedSoFar(log, name);
      }
    }
  }

  predicate Announced(log: seq<Event>, name: string) {
    exists i :: 0 <= i < |log| && log[i].body == ConnectorStarted(name)
  }

  lemma AnnouncedSoFar(log: seq<Event>, name: string)
    requires log != []
    ensures Announced(log, name) <==> Announced(log[..|log| - 1], name) || log[|log| - 1].body == ConnectorStarted(name)
  {
    var before := log[..|log| - 1];
    if i :| 0 <= i < |before| && before[i].body == ConnectorStarted(name) { assert log[i] == before[i]; }
    if i :| 0 <= i < |log| && log[i].body == ConnectorStarted(name) { assert i < |before| ==> before[i] == log[i]; }
  }

  lemma ShownStarted(v: View, e: Event)
    ensures Shown(v, e).started
         == if e.body.ConnectorStarted? && e.body.connector != "" && e.body.connector !in v.started
            then v.started + [e.body.connector] else v.started
  {
  }

  // ---- Progress ----

  /** Over a job's log: 8 before anything has arrived, 10 from its start to the first connector's, then 10 and the
      nearest share of 85 for the connectors reported, up to 95, 98 with the summary and 100 at the end. */
  lemma ProgressShown(s: Snapshot, results: seq<Outcome>, log: seq<Event>)
    requires Scripted(s.planned, results, log)
    ensures var page, n, k := Fold(s, log), |log|, |s.planned|;
            && (n == 0 ==> page.progress == 8)
            && (1 <= n <= 2 && n <= 2 * k + 1 ==> page.progress == 10)
            && (3 <= n <= 2 * k + 1 ==>
                  exists share: nat :: IsNearestShare(share, |page.table.names|, k)
                                       && page.progress == if share > 85 then 95 else 10 + share)
            && (n == 2 * k + 2 ==> page.progress == 98) && (n == 2 * k + 3 ==> page.progress == 100)
  {
    ProgressAt(s, results, log);
    ScriptedIsNumbered(s.planned, results, log);
    PageMirrorsLog(s, log);
    var t := Fold(s, log).table;
    CountIsCardinality(t.names, t.byName, IsChecked);
    if 3 <= |log| <= 2 * |s.planned| + 1 {
      RoundedIsNearest(|t.results|, |s.planned|);
    }
  }
}
