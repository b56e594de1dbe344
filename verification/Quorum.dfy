/** The G3 aggregator: many connector results become one overall status with a confidence. */
module Quorum {
  import opened Connectors
  import opened Integers
  import opened Sequences
  import opened Wrappers

  const SINGLE_FOUND_CONFIDENCE_CAP := 70

  /** The fields of a connector result that the aggregator reads. */
  datatype Outcome = Outcome(connector: string, status: ConnectorStatus, score: int)

  datatype OrchestratorError = UnknownConnector(connector: string)

  datatype Verdict = Verdict(status: ConnectorStatus, confidence: int)

  datatype Summary = Summary(
    verdict: Verdict,
    level: ConfidenceLevel,
    found: nat, likely: nat, notFound: nat, uncertain: nat,
    blocked: nat, error: nat, pending: nat, running: nat,
    independentFound: nat,
    agreementRatio: real,
    connectorsRun: seq<string>)

  predicate IsFound(r: Outcome) { r.status == Found }
  predicate IsLikely(r: Outcome) { r.status == Likely }
  predicate IsNotFound(r: Outcome) { r.status == NotFound }
  predicate IsUncertain(r: Outcome) { r.status == Uncertain }
  predicate IsBlocked(r: Outcome) { r.status == Blocked }
  predicate IsError(r: Outcome) { r.status == Error }
  predicate IsPending(r: Outcome) { r.status == Pending }
  predicate IsRunning(r: Outcome) { r.status == Running }

  /** Every result comes from a registered connector. */
  predicate Known(results: seq<Outcome>) {
    forall r :: r in results ==> r.connector in ALLOWED_CONNECTOR_IDS
  }

  function Bounded(r: Outcome): int { Clamp(0, 100, r.score) }

  function BoundedMean(results: seq<Outcome>): int {
    if results == [] then 0 else Clamp(0, 100, Sum(results, Bounded) / |results|)
  }

  function MaxScore(results: seq<Outcome>): (m: int)
    requires results != []
    ensures forall r :: r in results ==> r.score <= m
    ensures exists r :: r in results && r.score == m
  {
    if |results| == 1 then assert results[0] in results; results[0].score
    else
      var m := MaxScore(results[1..]);
      assert forall r :: r in results <==> r == results[0] || r in results[1..];
      Max(results[0].score, m)
  }

  function Names(results: seq<Outcome>): set<string> {
    set r | r in results :: r.connector
  }

  function Decide(results: seq<Outcome>): Verdict {
    Rule(Filter(results, IsFound), Filter(results, IsLikely),
         Count(results, IsNotFound), Count(results, IsBlocked), Count(results, IsError), |results|)
  }

  function Rule(found: seq<Outcome>, likely: seq<Outcome>, notFound: nat, blocked: nat, error: nat, total: nat): Verdict
  {
    if |Names(found)| >= 2 then Verdict(Found, BoundedMean(found))
    else if found != [] then Verdict(Likely, Min(Max(0, MaxScore(found)), SINGLE_FOUND_CONFIDENCE_CAP))
    else if likely != [] then Verdict(Likely, BoundedMean(likely))
    else if notFound > 0 && (blocked > 0 || error > 0) then Verdict(Uncertain, 0)
    else if blocked > 0 && blocked == total then Verdict(Blocked, 0)
    else if error > 0 && error == total then Verdict(Error, 0)
    else if notFound > 0 && notFound == total then Verdict(NotFound, 0)
    else Verdict(Uncertain, 0)
  }

  /** Share of the decisive results (found, likely, not found, uncertain) that are positive, exactly; the aggregator
      rounds it to four digits. */
  function AgreementRatio(results: seq<Outcome>): real {
    var positive := Count(results, IsFound) + Count(results, IsLikely);
    var decisive := positive + Count(results, IsNotFound) + Count(results, IsUncertain);
    if decisive == 0 then 0.0 else positive as real / decisive as real
  }

  /** Each connector once, in the order of first appearance. */
  function FirstOccurrences(results: seq<Outcome>): seq<string> {
    if results == [] then []
    else
      var before := FirstOccurrences(results[..|results| - 1]);
      var last := results[|results| - 1].connector;
      if last in before then before else before + [last]
  }

  function Summarize(results: seq<Outcome>): Summary {
    var verdict := Decide(results);
    Summary(verdict, DeriveConfidenceLevel(verdict.confidence),
            Count(results, IsFound), Count(results, IsLikely), Count(results, IsNotFound), Count(results, IsUncertain),
            Count(results, IsBlocked), Count(results, IsError), Count(results, IsPending), Count(results, IsRunning),
            |Names(Filter(results, IsFound))|, AgreementRatio(results), FirstOccurrences(results))
  }

  /** The registry check comes first, so one unknown connector rejects the batch. */
  method AggregateResults(results: seq<Outcome>) returns (summary: Result<Summary, OrchestratorError>)
    ensures summary.Success? <==> Known(results)
    ensures Known(results) <==> forall i :: 0 <= i < |results| ==> results[i].connector in ALLOWED_CONNECTOR_IDS
    ensures summary.Success? ==> summary.value == Summarize(results)
    ensures summary.Failure? ==>
              exists i :: 0 <= i < |results| && results[i].connector == summary.error.connector
                          && summary.error.connector !in ALLOWED_CONNECTOR_IDS
                          && forall k :: 0 <= k < i ==> results[k].connector in ALLOWED_CONNECTOR_IDS
  {
    for i := 0 to |results|
      invariant Known(results[..i])
    {
      if results[i].connector !in ALLOWED_CONNECTOR_IDS {
        assert results[i] in results;
        return Failure(UnknownConnector(results[i].connector));
      }
      assert results[..i + 1] == results[..i] + [results[i]];
    }
    assert results[..|results|] == results;
    var seen: seq<string> := [];
    var seenSet: set<string> := {};
    for i := 0 to |results|
      invariant seen == FirstOccurrences(results[..i])
      invariant forall name :: name in seenSet <==> name in seen
    {
      assert results[..i + 1][..i] == results[..i];
      if results[i].connector !in seenSet {
        seen := seen + [results[i].connector];
        seenSet := seenSet + {results[i].connector};
      }
    }
    var found := Filter(results, IsFound);
    var verdict := Decide(results);
    summary := Success(Summary(
      verdict, DeriveConfidenceLevel(verdict.confidence),
      Count(results, IsFound), Count(results, IsLikely), Count(results, IsNotFound), Count(results, IsUncertain),
      Count(results, IsBlocked), Count(results, IsError), Count(results, IsPending), Count(results, IsRunning),
      |Names(found)|, AgreementRatio(results), seen));
  }

  // ---- Reference counts, by status ----

  /** How many results have this status. */
  function Having(results: seq<Outcome>, status: ConnectorStatus): nat {
    if results == [] then 0
    else Having(results[..|results| - 1], status) + if results[|results| - 1].status == status then 1 else 0
  }

  /** What their scores add up to, each held between 0 and 100. */
  function HeldTotal(results: seq<Outcome>, status: ConnectorStatus): int {
    if results == [] then 0
    else
      var before, r := HeldTotal(results[..|results| - 1], status), results[|results| - 1];
      if r.status != status then before else before + if r.score < 0 then 0 else if r.score > 100 then 100 else r.score
  }

  lemma {:induction false} CountIsHaving(results: seq<Outcome>, p: Outcome -> bool, status: ConnectorStatus)
    requires forall r :: p(r) <==> r.status == status
    ensures Count(results, p) == Having(results, status)
  {
    if results != [] {
      var before, r := results[..|results| - 1], results[|results| - 1];
      assert results == before + [r];
      CountConcat(before, [r], p);
      CountIsHaving(before, p, status);
    }
  }

  // ---- Counters and the list of connectors ----

  function Tally(results: seq<Outcome>): nat {
    Count(results, IsFound) + Count(results, IsLikely) + Count(results, IsNotFound) + Count(results, IsUncertain)
    + Count(results, IsBlocked) + Count(results, IsError) + Count(results, IsPending) + Count(results, IsRunning)
  }

  lemma {:induction false} TallyIsLength(results: seq<Outcome>)
    ensures Tally(results) == |results|
  {
    if results != [] {
      TallyIsLength(results[1..]);
    }
  }

  /** The eight counters sum to the number of results, and the agreement ratio is a fraction. */
  lemma CountersPartitionTheBatch(results: seq<Outcome>)
    ensures var s := Summarize(results);
            && s.found + s.likely + s.notFound + s.uncertain + s.blocked + s.error + s.pending + s.running == |results|
            && 0.0 <= s.agreementRatio <= 1.0
  {
    TallyIsLength(results);
    var positive := Count(results, IsFound) + Count(results, IsLikely);
    FractionInUnit(positive, positive + Count(results, IsNotFound) + Count(results, IsUncertain));
  }

  /** Each counter counts its own status, and the level is that of the confidence. */
  lemma SummaryCountsStatuses(results: seq<Outcome>)
    ensures var s := Summarize(results);
            && s.found == Having(results, Found) && s.likely == Having(results, Likely)
            && s.notFound == Having(results, NotFound) && s.uncertain == Having(results, Uncertain)
            && s.blocked == Having(results, Blocked) && s.error == Having(results, Error)
            && s.pending == Having(results, Pending) && s.running == Having(results, Running)
            && s.verdict == Decide(results)
            && (s.level == High <==> s.verdict.confidence >= 85)
            && (s.level == Medium <==> 60 <= s.verdict.confidence < 85)
            && (s.level == Low <==> 30 <= s.verdict.confidence < 60)
  {
    CountIsHaving(results, IsFound, Found); CountIsHaving(results, IsLikely, Likely);
    CountIsHaving(results, IsNotFound, NotFound); CountIsHaving(results, IsUncertain, Uncertain);
    CountIsHaving(results, IsBlocked, Blocked); CountIsHaving(results, IsError, Error);
    CountIsHaving(results, IsPending, Pending); CountIsHaving(results, IsRunning, Running);
  }

  /** `a` out of `a + b`; nothing out of nothing is zero. */
  predicate IsShare(share: real, a: nat, b: nat) {
    share * (a + b) as real == a as real && (a == 0 ==> share == 0.0)
  }

  /** The agreement ratio is the share of the positive among the decisive results. */
  lemma AgreementIsShareOfDecisive(results: seq<Outcome>)
    ensures var s := Summarize(results);
            IsShare(s.agreementRatio, s.found + s.likely, s.notFound + s.uncertain)
  {
    var a, b := Count(results, IsFound) + Count(results, IsLikely),
                Count(results, IsNotFound) + Count(results, IsUncertain);
    ShareTimesWhole(a, b, if a + b == 0 then 0.0 else a as real / (a + b) as real);
    RatioOfSummary(results, a, b);
  }

  lemma RatioOfSummary(results: seq<Outcome>, a: nat, b: nat)
    requires a == Count(results, IsFound) + Count(results, IsLikely)
    requires b == Count(results, IsNotFound) + Count(results, IsUncertain)
    ensures var s := Summarize(results);
            && s.agreementRatio == (if a + b == 0 then 0.0 else a as real / (a + b) as real)
            && s.found + s.likely == a && s.notFound + s.uncertain == b
  {
  }

  lemma ShareTimesWhole(a: nat, b: nat, share: real)
    requires share == if a + b == 0 then 0.0 else a as real / (a + b) as real
    ensures IsShare(share, a, b)
  {
  }

  lemma FractionInUnit(a: nat, b: nat)
    requires a <= b
    ensures b > 0 ==> 0.0 <= a as real / b as real <= 1.0
  {
    if b > 0 {
      var ratio := a as real / b as real;
      assert ratio * b as real == a as real <= b as real;
    }
  }

  /** Finders are counted once for each connector. */
  lemma FindersAreConnectors(results: seq<Outcome>)
    ensures Summarize(results).independentFound == |set r | r in results && r.status == Found :: r.connector|
  {
    FilterMembers(results, IsFound);
    var finders := set r | r in results && r.status == Found :: r.connector;
    assert Names(Filter(results, IsFound)) == finders;
  }

  lemma {:induction false} FirstOccurrencesAreTheNames(results: seq<Outcome>)
    ensures var run := FirstOccurrences(results);
            && (forall i, j :: 0 <= i < j < |run| ==> run[i] != run[j])
            && (forall name :: name in run <==> name in Names(results))
  {
    if results != [] {
      var n := |results| - 1;
      FirstOccurrencesAreTheNames(results[..n]);
      assert forall r :: r in results <==> r in results[..n] || r == results[n];
      assert Names(results) == Names(results[..n]) + {results[n].connector};
    }
  }

  /** No connector is listed twice, none is missed, and what a longer batch adds comes after what was there. */
  lemma {:induction false} ConnectorsRunInFirstSeenOrder(results: seq<Outcome>, p: nat)
    requires p <= |results|
    ensures var run, early := FirstOccurrences(results), FirstOccurrences(results[..p]);
            && early <= run
            && (forall i, j :: 0 <= i < j < |run| ==> run[i] != run[j])
            && (forall name :: name in run <==> name in Names(results))
            && (forall name :: name in early <==> name in Names(results[..p]))
  {
    FirstOccurrencesAreTheNames(results);
    FirstOccurrencesAreTheNames(results[..p]);
    if p < |results| {
      var n := |results| - 1;
      assert results[..n][..p] == results[..p];
      ConnectorsRunInFirstSeenOrder(results[..n], p);
    } else {
      assert results[..p] == results;
    }
  }

  // ---- Order independence ----

  lemma {:induction false} MeanPermutation(a: seq<Outcome>, b: seq<Outcome>)
    requires multiset(a) == multiset(b)
    ensures BoundedMean(a) == BoundedMean(b)
  {
    SameMembers(a, b);
    SumPermutation(a, b, Bounded);
  }

  /** Reordering a batch changes nothing but the order in which its connectors are listed. */
  lemma OrderIrrelevant(a: seq<Outcome>, b: seq<Outcome>)
    requires multiset(a) == multiset(b)
    ensures Known(a) <==> Known(b)
    ensures Summarize(a) == Summarize(b).(connectorsRun := FirstOccurrences(a))
    ensures forall name :: name in FirstOccurrences(a) <==> name in FirstOccurrences(b)
  {
    SummaryPermutation(a, b);
    assert (Known(a) <==> Known(b)) && Names(a) == Names(b) by { SameMembers(a, b); }
    FirstOccurrencesAreTheNames(a);
    FirstOccurrencesAreTheNames(b);
  }

  /** Two batches that agree on every ingredient of the summary but the order of the connectors. */
  lemma SummaryFromParts(a: seq<Outcome>, b: seq<Outcome>, verdict: Verdict, ratio: real, finders: set<string>)
    requires verdict == Decide(a) == Decide(b) && ratio == AgreementRatio(a) == AgreementRatio(b)
    requires finders == Names(Filter(a, IsFound)) == Names(Filter(b, IsFound)) && SameCounters(a, b)
    ensures Summarize(a) == Summarize(b).(connectorsRun := FirstOccurrences(a))
  {
  }

  lemma SummaryPermutation(a: seq<Outcome>, b: seq<Outcome>)
    requires multiset(a) == multiset(b)
    ensures Summarize(a) == Summarize(b).(connectorsRun := FirstOccurrences(a))
  {
    CountersPermutation(a, b);
    VerdictPermutation(a, b);
    RatioFromCounters(a, b);
    SummaryFromParts(a, b, Decide(a), AgreementRatio(a), Names(Filter(a, IsFound)));
  }

  lemma RatioFromCounters(a: seq<Outcome>, b: seq<Outcome>)
    requires SameCounters(a, b)
    ensures AgreementRatio(a) == AgreementRatio(b)
  {
  }

  predicate SameCounters(a: seq<Outcome>, b: seq<Outcome>) {
    && Count(a, IsFound) == Count(b, IsFound) && Count(a, IsLikely) == Count(b, IsLikely)
    && Count(a, IsNotFound) == Count(b, IsNotFound) && Count(a, IsUncertain) == Count(b, IsUncertain)
    && Count(a, IsBlocked) == Count(b, IsBlocked) && Count(a, IsError) == Count(b, IsError)
    && Count(a, IsPending) == Count(b, IsPending) && Count(a, IsRunning) == Count(b, IsRunning)
  }

  lemma CountersPermutation(a: seq<Outcome>, b: seq<Outcome>)
    requires multiset(a) == multiset(b)
    ensures SameCounters(a, b)
  {
    CountPermutation(a, b, IsFound); CountPermutation(a, b, IsLikely);
    CountPermutation(a, b, IsNotFound); CountPermutation(a, b, IsUncertain);
    CountPermutation(a, b, IsBlocked); CountPermutation(a, b, IsError);
    CountPermutation(a, b, IsPending); CountPermutation(a, b, IsRunning);
  }

  lemma VerdictPermutation(a: seq<Outcome>, b: seq<Outcome>)
    requires multiset(a) == multiset(b)
    ensures Decide(a) == Decide(b)
    ensures Names(Filter(a, IsFound)) == Names(Filter(b, IsFound))
  {
    SameMembers(a, b);
    var fa, fb := Filter(a, IsFound), Filter(b, IsFound);
    var la, lb := Filter(a, IsLikely), Filter(b, IsLikely);
    FilterPermutation(a, b, IsFound); FilterPermutation(a, b, IsLikely);
    SameMembers(fa, fb); SameMembers(la, lb);
    assert Names(fa) == Names(fb);
    MeanPermutation(fa, fb); MeanPermutation(la, lb);
    if fa != [] {
      assert MaxScore(fa) == MaxScore(fb);
    }
    CountPermutation(a, b, IsNotFound); CountPermutation(a, b, IsBlocked); CountPermutation(a, b, IsError);
  }

  // ---- What the overall status means ----

  lemma TwoNames(results: seq<Outcome>)
    ensures |Names(results)| >= 2 <==> exists r, q :: r in results && q in results && r.connector != q.connector
  {
    var names := Names(results);
    if |names| >= 2 {
      var x :| x in names;
      assert |names - {x}| >= 1;
      var y :| y in names - {x};
      var r :| r in results && r.connector == x;
      var q :| q in results && q.connector == y;
    }
    if r, q :| r in results && q in results && r.connector != q.connector {
      assert {r.connector, q.connector} <= names;
      SubsetSize({r.connector, q.connector}, names);
    }
  }

  lemma {:induction false} SubsetSize<T>(a: set<T>, b: set<T>)
    requires a <= b
    ensures |a| <= |b|
  {
    if x :| x in a {
      SubsetSize(a - {x}, b - {x});
    }
  }

  lemma {:induction false} SumBetween(results: seq<Outcome>, low: int, high: int)
    requires forall r :: r in results ==> low <= Bounded(r) <= high
    ensures low * |results| <= Sum(results, Bounded) <= high * |results|
  {
    if results != [] {
      assert low <= Bounded(results[0]) <= high;
      SumBetween(results[1..], low, high);
      Distribute(low, |results|);
      Distribute(high, |results|);
    }
  }

  lemma Distribute(x: int, n: nat)
    requires 0 < n
    ensures x * n == x + x * (n - 1)
  {
  }

  lemma MeanBetween(results: seq<Outcome>, low: int, high: int)
    requires results != [] && 0 <= low && high <= 100
    requires forall r :: r in results ==> low <= Bounded(r) <= high
    ensures low <= BoundedMean(results) <= high
  {
    SumBetween(results, low, high);
    QuotientBetween(Sum(results, Bounded), |results|, low, high);
  }

  lemma QuotientBetween(total: int, n: int, low: int, high: int)
    requires 0 < n && low * n <= total <= high * n
    ensures low <= total / n <= high
  {
    var q := total / n;
    assert q * n <= total < (q + 1) * n;
    ProductMonotone(q + 1, low, n);
    ProductMonotone(high + 1, q, n);
  }

  lemma ProductMonotone(a: int, b: int, n: nat)
    ensures a <= b ==> a * n <= b * n
  {
  }

  lemma OneHeld(r: Outcome, p: Outcome -> bool, status: ConnectorStatus)
    requires p(r) <==> r.status == status
    ensures var score := if r.score < 0 then 0 else if r.score > 100 then 100 else r.score;
            Sum(Filter([r], p), Bounded) == if r.status == status then score else 0
  {
    assert Filter([r], p) == if r.status == status then [r] else [];
  }

  lemma {:induction false} SumIsHeldTotal(results: seq<Outcome>, p: Outcome -> bool, status: ConnectorStatus)
    requires forall r :: p(r) <==> r.status == status
    ensures Sum(Filter(results, p), Bounded) == HeldTotal(results, status)
  {
    if results != [] {
      var before, r := results[..|results| - 1], results[|results| - 1];
      assert results == before + [r];
      FilterConcat(before, [r], p);
      SumConcat(Filter(before, p), Filter([r], p), Bounded);
      OneHeld(r, p, status);
      SumIsHeldTotal(before, p, status);
    }
  }

  lemma QuotientIsFloor(total: int, n: nat)
    requires n > 0
    ensures n * (total / n) <= total < n * (total / n + 1)
  {
  }

  lemma MeanIsFloor(results: seq<Outcome>)
    requires results != []
    ensures var n, total, mean := |results|, Sum(results, Bounded), BoundedMean(results);
            n * mean <= total < n * (mean + 1)
  {
    MeanBetween(results, 0, 100);
    QuotientIsFloor(Sum(results, Bounded), |results|);
    SumBetween(results, 0, 100);
    QuotientBetween(Sum(results, Bounded), |results|, 0, 100);
  }

  /** The confidence `c` is the mean of the scores found with this status, each held between 0 and 100, rounded down. */
  predicate IsMean(results: seq<Outcome>, status: ConnectorStatus, c: int) {
    var n, total := Having(results, status), HeldTotal(results, status);
    n > 0 && n * c <= total < n * (c + 1)
  }

  /** With a quorum the confidence is the mean of the scores that were found; with no finder at all it is that of the
      results that are likely. */
  lemma ConfidenceIsMean(results: seq<Outcome>)
    ensures Decide(results).status == Found ==> IsMean(results, Found, Decide(results).confidence)
    ensures Decide(results).status == Likely && Having(results, Found) == 0 ==>
              IsMean(results, Likely, Decide(results).confidence)
  {
    var found, likely := Filter(results, IsFound), Filter(results, IsLikely);
    SumIsHeldTotal(results, IsFound, Found);
    SumIsHeldTotal(results, IsLikely, Likely);
    FilterMembers(results, IsFound); CountIsHaving(results, IsFound, Found);
    FilterMembers(results, IsLikely); CountIsHaving(results, IsLikely, Likely);
    if found != [] { MeanIsFloor(found); }
    if likely != [] { MeanIsFloor(likely); }
    if |Names(found)| >= 2 { assert found != []; }
  }

  /** Overall FOUND is exactly the quorum: two results found by different connectors. Its confidence lies
      between any bounds on the (clamped) scores that were found. */
  lemma FoundIffQuorum(results: seq<Outcome>, low: int, high: int)
    ensures Decide(results).status == Found <==>
              exists r, q :: r in results && q in results && r.status == q.status == Found && r.connector != q.connector
    ensures Decide(results).status == Found && 0 <= low && high <= 100
              && (forall r :: r in results && r.status == Found ==> low <= Clamp(0, 100, r.score) <= high)
            ==> low <= Decide(results).confidence <= high
    ensures Decide(results).status == Found ==> IsMean(results, Found, Decide(results).confidence)
  {
    var found := Filter(results, IsFound);
    FilterMembers(results, IsFound);
    ConfidenceIsMean(results);
    TwoNames(found);
    if |Names(found)| >= 2 {
      assert found != [];
      if 0 <= low && high <= 100 && (forall r :: r in results && IsFound(r) ==> low <= Bounded(r) <= high) {
        MeanBetween(found, low, high);
      }
    }
    if r, q :| r in results && q in results && IsFound(r) && IsFound(q) && r.connector != q.connector {
      assert r in found && q in found;
    }
  }

  /** When a single connector found the target, however often, the verdict is LIKELY at the best score it
      reported, held between 0 and the cap. */
  lemma SingleFinderIsCapped(results: seq<Outcome>, r: Outcome)
    requires r in results && r.status == Found
    requires forall q :: q in results && q.status == Found ==> q.connector == r.connector && q.score <= r.score
    ensures Decide(results) == Verdict(Likely, if r.score < 0 then 0 else if r.score > 70 then 70 else r.score)
  {
    var found := Filter(results, IsFound);
    FilterMembers(results, IsFound);
    TwoNames(found);
    assert r in found;
  }

  /** Every status other than FOUND and LIKELY carries no confidence; a verdict is LIKELY exactly when somebody
      found or suspected the target without a quorum. */
  lemma LikelyIffSomeFinderWithoutQuorum(results: seq<Outcome>)
    ensures Decide(results).status == Likely <==>
              && Decide(results).status != Found
              && exists r :: r in results && (r.status == Found || r.status == Likely)
    ensures 0 <= Decide(results).confidence <= 100
    ensures Decide(results).status !in {Found, Likely} ==> Decide(results).confidence == 0
  {
    var found, likely := Filter(results, IsFound), Filter(results, IsLikely);
    FilterMembers(results, IsFound); FilterMembers(results, IsLikely);
    if found != [] { assert found[0] in found; }
    if likely != [] { assert likely[0] in likely; }
    if r :| r in results && (IsFound(r) || IsLikely(r)) {
      assert r in found || r in likely;
    }
  }

  /** The unanimous verdicts mean unanimity, both ways; in particular a blocked connector is never folded into
      NOT_FOUND or ERROR. */
  lemma UnanimousVerdicts(results: seq<Outcome>)
    ensures Decide(results).status == NotFound <==> results != [] && forall r :: r in results ==> r.status == NotFound
    ensures Decide(results).status == Error <==> results != [] && forall r :: r in results ==> r.status == Error
    ensures Decide(results).status == Blocked <==> results != [] && forall r :: r in results ==> r.status == Blocked
    ensures Decide(results).status in {NotFound, Error} ==> Summarize(results).blocked == 0
    ensures Decide(results).status !in {Pending, Running}
  {
    VerdictByCounts(results);
    TallyIsLength(results);
    CountAll(results, IsNotFound); CountAll(results, IsError); CountAll(results, IsBlocked);
  }

  lemma VerdictByCounts(results: seq<Outcome>)
    ensures var s, n := Decide(results).status, |results|;
            var notFound, error := Count(results, IsNotFound), Count(results, IsError);
            var blocked := Count(results, IsBlocked);
            && (s in {NotFound, Error, Blocked} ==> Count(results, IsFound) == Count(results, IsLikely) == 0)
            && (s == NotFound ==> notFound == n > 0) && (s == Error ==> error == n > 0)
            && (s == Blocked ==> blocked == n > 0)
            && (Count(results, IsFound) == Count(results, IsLikely) == 0 && n > 0 ==>
                  && (notFound == n && blocked == error == 0 ==> s == NotFound)
                  && (error == n && blocked == notFound == 0 ==> s == Error)
                  && (blocked == n && notFound == error == 0 ==> s == Blocked))
            && s !in {Pending, Running}
  {
    FilterMembers(results, IsFound);
    FilterMembers(results, IsLikely);
  }

  /** Silence never argues against a finding: results that are neither found nor likely leave a FOUND or LIKELY
      verdict and its confidence as they were, wherever in the batch they sit. */
  lemma QuietResultsKeepPositiveVerdict(before: seq<Outcome>, quiet: seq<Outcome>, after: seq<Outcome>)
    requires Decide(before + after).status in {Found, Likely}
    requires forall r :: r in quiet ==> r.status != Found && r.status != Likely
    ensures Decide(before + quiet + after) == Decide(before + after)
  {
    QuietFilter(before, quiet, after, IsFound);
    QuietFilter(before, quiet, after, IsLikely);
    var merged := before + after;
    FilterMembers(merged, IsFound);
    FilterMembers(merged, IsLikely);
    LikelyIffSomeFinderWithoutQuorum(merged);
  }

  lemma QuietFilter(before: seq<Outcome>, quiet: seq<Outcome>, after: seq<Outcome>, p: Outcome -> bool)
    requires forall r :: r in quiet ==> !p(r)
    ensures Filter(before + quiet + after, p) == Filter(before + after, p)
  {
    FilterConcat(before + quiet, after, p);
    FilterConcat(before, quiet, p);
    FilterConcat(before, after, p);
    CountZero(quiet, p);
    FilterMembers(quiet, p);
  }
}
