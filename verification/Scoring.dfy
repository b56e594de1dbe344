/** Validation v2 scoring: the signals of all validators become one status and one score. */
module Scoring {
  import opened Integers
  import opened Sequences
  import opened Wrappers

  datatype Signal = Signal(name: string, weight: int, detail: string, hardPositive: bool, hardNegative: bool)

  datatype ValidationOutcome = ValidationOutcome(validator: string, signals: seq<Signal>, warnings: seq<string>)

  datatype Evidence = Evidence(signal: string, weight: int, detail: string)

  datatype ValidationStatus = NotFound | LikelyFalsePositive | Uncertain | Likely | Confirmed | Invalid

  datatype Scored = Scored(status: ValidationStatus, score: int)

  datatype ScoredResult = ScoredResult(
    verdict: Scored, evidence: seq<Evidence>, warnings: seq<string>, baselineUsed: bool)

  // ---- What the outcomes say, taken together ----

  function AllSignals(outcomes: seq<ValidationOutcome>): seq<Signal> {
    if outcomes == [] then [] else AllSignals(outcomes[..|outcomes| - 1]) + outcomes[|outcomes| - 1].signals
  }

  function AllWarnings(outcomes: seq<ValidationOutcome>): seq<string> {
    if outcomes == [] then [] else AllWarnings(outcomes[..|outcomes| - 1]) + outcomes[|outcomes| - 1].warnings
  }

  /** The last baseline comparison decides, and it counts as used unless it reports being disabled. */
  predicate BaselineUsed(outcomes: seq<ValidationOutcome>) {
    exists i :: 0 <= i < |outcomes| && outcomes[i].validator == "baseline_compare"
                && "baseline_disabled" !in outcomes[i].warnings
                && forall j :: i < j < |outcomes| ==> outcomes[j].validator != "baseline_compare"
  }

  method Flatten(outcomes: seq<ValidationOutcome>)
    returns (signals: seq<Signal>, warnings: seq<string>, baselineUsed: bool)
    ensures signals == AllSignals(outcomes) && warnings == AllWarnings(outcomes)
    ensures baselineUsed == BaselineUsed(outcomes)
    ensures baselineUsed <==>
              exists i :: 0 <= i < |outcomes| && outcomes[i].validator == "baseline_compare"
                          && "baseline_disabled" !in outcomes[i].warnings
                          && forall j :: i < j < |outcomes| ==> outcomes[j].validator != "baseline_compare"
  {
    signals, warnings, baselineUsed := [], [], false;
    ghost var last := -1;
    for n := 0 to |outcomes|
      invariant signals == AllSignals(outcomes[..n]) && warnings == AllWarnings(outcomes[..n])
      invariant -1 <= last < n
      invariant forall j :: last < j < n ==> outcomes[j].validator != "baseline_compare"
      invariant last >= 0 ==> outcomes[last].validator == "baseline_compare"
      invariant baselineUsed <==> last >= 0 && "baseline_disabled" !in outcomes[last].warnings
    {
      assert outcomes[..n + 1][..n] == outcomes[..n];
      if outcomes[n].validator == "baseline_compare" {
        baselineUsed := "baseline_disabled" !in outcomes[n].warnings;
        last := n;
      }
      signals := signals + outcomes[n].signals;
      warnings := warnings + outcomes[n].warnings;
    }
    assert outcomes[..|outcomes|] == outcomes;
  }

  // ---- The decision ----

  predicate Positive(s: Signal) { s.weight > 0 }
  function Weight(s: Signal): int { s.weight }
  predicate IsLinkedinAuth(s: Signal) { "linkedin_auth" <= s.name }
  predicate IsIndistinguishable(s: Signal) { s.name == "baseline_indistinguishable" }

  predicate AnyHardPositive(signals: seq<Signal>) { exists s :: s in signals && s.hardPositive }
  predicate AnyHardNegative(signals: seq<Signal>) { exists s :: s in signals && s.hardNegative }
  predicate Indistinguishable(signals: seq<Signal>) { exists s :: s in signals && IsIndistinguishable(s) }

  predicate AuthBlocked(signals: seq<Signal>, warnings: set<string>) {
    "bot_check" in warnings || exists s :: s in signals && IsLinkedinAuth(s)
  }

  predicate LoginInconclusive(warnings: set<string>) {
    "login_required" in warnings || "redirect_to_login" in warnings
  }

  /** Status and score from the totals; `low` is the low-reliability flag of the platform. */
  function Decide(raw: int, positives: nat, hardPositive: bool, low: bool): Scored {
    var clamped := Clamp(0, 100, raw);
    var score := if low && !hardPositive then Min(clamped, 84) else clamped;
    if score >= 85 && (hardPositive || positives >= 3) then Scored(Confirmed, score)
    else if score >= 60 && positives >= 2 then Scored(Likely, score)
    else if score >= 30 || positives >= 1 then Scored(Uncertain, score)
    else if score >= 10 then Scored(LikelyFalsePositive, score)
    else Scored(NotFound, score)
  }

  function Verdict(signals: seq<Signal>, warnings: set<string>, low: bool): Scored {
    var raw := Sum(signals, Weight);
    if AuthBlocked(signals, warnings) then Scored(Invalid, 0)
    else if LoginInconclusive(warnings) && !AnyHardNegative(signals) then Scored(Uncertain, Clamp(30, 59, raw))
    else if AnyHardNegative(signals) then
      Scored(if Indistinguishable(signals) || raw > 0 then LikelyFalsePositive else NotFound, Clamp(0, 29, raw + 40))
    else Decide(raw, Count(signals, Positive), AnyHardPositive(signals), low)
  }

  function Members(s: seq<string>): set<string> { set x | x in s }

  function AsEvidence(signals: seq<Signal>): seq<Evidence> {
    seq(|signals|, i requires 0 <= i < |signals| => Evidence(signals[i].name, signals[i].weight, signals[i].detail))
  }

  method CombineOutcomes(outcomes: seq<ValidationOutcome>, reliability: string, fetchError: Option<string>)
    returns (r: ScoredResult)
    ensures fetchError.Some? && fetchError.value != "" ==>
              r == ScoredResult(Scored(Invalid, 0), [Evidence("fetch_error", 0, fetchError.value)], [], false)
    ensures fetchError.None? || fetchError.value == "" ==>
              && r.verdict == Verdict(AllSignals(outcomes), Members(AllWarnings(outcomes)), reliability == "low")
              && r.warnings == AllWarnings(outcomes) && r.baselineUsed == BaselineUsed(outcomes)
              && var signals := AllSignals(outcomes);
                 if signals == [] then r.evidence == [Evidence("no_validation_signals", 0, "no_match")]
                 else
                   && |r.evidence| == |signals|
                   && forall i :: 0 <= i < |signals| ==>
                        r.evidence[i] == Evidence(signals[i].name, signals[i].weight, signals[i].detail)
  {
    if fetchError.Some? && fetchError.value != "" {
      return ScoredResult(Scored(Invalid, 0), [Evidence("fetch_error", 0, fetchError.value)], [], false);
    }
    var signals, warnings, baselineUsed := Flatten(outcomes);
    var evidence := AsEvidence(signals);
    if evidence == [] {
      evidence := [Evidence("no_validation_signals", 0, "no_match")];
    }
    r := ScoredResult(Verdict(signals, Members(warnings), reliability == "low"), evidence, warnings, baselineUsed);
  }

  // ---- Order independence ----

  /** Which validator spoke, in what order, and how often a warning was repeated make no difference to the verdict. */
  lemma OrderIrrelevant(a: seq<ValidationOutcome>, b: seq<ValidationOutcome>, low: bool)
    requires multiset(AllSignals(a)) == multiset(AllSignals(b))
    requires Members(AllWarnings(a)) == Members(AllWarnings(b))
    ensures Verdict(AllSignals(a), Members(AllWarnings(a)), low) == Verdict(AllSignals(b), Members(AllWarnings(b)), low)
  {
    SameMembers(AllSignals(a), AllSignals(b));
    SumPermutation(AllSignals(a), AllSignals(b), Weight);
    CountPermutation(AllSignals(a), AllSignals(b), Positive);
  }

  /** Reordering the outcomes themselves is one such change. */
  lemma {:induction false} FlattenPermutation(a: seq<ValidationOutcome>, b: seq<ValidationOutcome>)
    requires multiset(a) == multiset(b)
    ensures multiset(AllSignals(a)) == multiset(AllSignals(b))
    ensures multiset(AllWarnings(a)) == multiset(AllWarnings(b))
    decreases |a|
  {
    SameMembers(a, b);
    if a != [] {
      var n := |a| - 1;
      var i := Extract(b, a[n]);
      assert a == a[..n] + [a[n]];
      FlattenPermutation(a[..n], b[..i] + b[i + 1..]);
      FlattenWithout(b[..i], a[n], b[i + 1..]);
    }
  }

  lemma FlattenWithout(before: seq<ValidationOutcome>, o: ValidationOutcome, after: seq<ValidationOutcome>)
    ensures multiset(AllSignals(before + [o] + after))
         == multiset(AllSignals(before + after)) + multiset(o.signals)
    ensures multiset(AllWarnings(before + [o] + after))
         == multiset(AllWarnings(before + after)) + multiset(o.warnings)
  {
    FlattenConcat(before, after);
    FlattenConcat(before + [o], after);
    FlattenConcat(before, [o]);
  }

  lemma FlattenOne(o: ValidationOutcome)
    ensures AllSignals([o]) == o.signals && AllWarnings([o]) == o.warnings
  {
    assert [o][..0] == [];
  }

  /** Signals and warnings come outcome by outcome, in order. */
  lemma {:induction false} FlattenConcat(a: seq<ValidationOutcome>, b: seq<ValidationOutcome>)
    ensures AllSignals(a + b) == AllSignals(a) + AllSignals(b)
    ensures AllWarnings(a + b) == AllWarnings(a) + AllWarnings(b)
    decreases |b|
  {
    if b == [] {
      assert a + b == a;
    } else {
      var n := |b| - 1;
      assert (a + b)[..|a + b| - 1] == a + b[..n];
      FlattenConcat(a, b[..n]);
    }
  }

  lemma VerdictIgnoresOutcomeOrder(a: seq<ValidationOutcome>, b: seq<ValidationOutcome>, low: bool)
    requires multiset(a) == multiset(b)
    ensures Verdict(AllSignals(a), Members(AllWarnings(a)), low) == Verdict(AllSignals(b), Members(AllWarnings(b)), low)
  {
    FlattenPermutation(a, b);
    SameMembers(AllWarnings(a), AllWarnings(b));
    OrderIrrelevant(a, b, low);
  }

  // ---- Monotonicity ----

  /** not_found < likely_false_positive < uncertain < likely < confirmed. */
  function Rank(status: ValidationStatus): nat
    requires status != Invalid
  {
    match status
    case NotFound => 0 case LikelyFalsePositive => 1 case Uncertain => 2 case Likely => 3 case Confirmed => 4
  }

  ghost predicate NoWorse(before: Scored, after: Scored) {
    && (before.status == Invalid <==> after.status == Invalid)
    && (before.status != Invalid ==> Rank(before.status) <= Rank(after.status))
    && before.score <= after.score
  }

  lemma DecideMonotone(raw: int, raw': int, positives: nat, positives': nat, hard: bool, hard': bool, low: bool)
    requires raw <= raw' && positives <= positives' && (hard ==> hard')
    ensures NoWorse(Decide(raw, positives, hard, low), Decide(raw', positives', hard', low))
  {
  }

  /** A signal that speaks for the profile and is none of the special kinds. */
  predicate Supports(s: Signal) {
    s.weight >= 0 && !s.hardNegative && !IsLinkedinAuth(s) && !IsIndistinguishable(s)
  }

  /** One more supporting signal, wherever it is inserted, never lowers the score or the status. */
  lemma SupportNeverHurts(before: seq<Signal>, s: Signal, after: seq<Signal>, warnings: set<string>, low: bool)
    requires Supports(s)
    ensures NoWorse(Verdict(before + after, warnings, low), Verdict(before + [s] + after, warnings, low))
  {
    var small, big := before + after, before + [s] + after;
    assert forall x :: x in big <==> x in small || x == s;
    SumConcat(before, after, Weight);
    SumConcat(before + [s], after, Weight);
    SumConcat(before, [s], Weight);
    CountConcat(before, after, Positive);
    CountConcat(before + [s], after, Positive);
    CountConcat(before, [s], Positive);
    SupportKeepsFlags(small, big, s, warnings);
    DecideMonotone(Sum(small, Weight), Sum(big, Weight), Count(small, Positive), Count(big, Positive),
                   AnyHardPositive(small), AnyHardPositive(big), low);
  }

  lemma SupportKeepsFlags(small: seq<Signal>, big: seq<Signal>, s: Signal, warnings: set<string>)
    requires Supports(s) && forall x :: x in big <==> x in small || x == s
    ensures AuthBlocked(small, warnings) == AuthBlocked(big, warnings)
    ensures AnyHardNegative(small) == AnyHardNegative(big)
    ensures Indistinguishable(small) == Indistinguishable(big)
    ensures AnyHardPositive(small) ==> AnyHardPositive(big)
  {
  }

  // ---- What each verdict rests on ----

  /** What the signals weigh together. */
  function TotalWeight(signals: seq<Signal>): int {
    if signals == [] then 0 else TotalWeight(signals[..|signals| - 1]) + signals[|signals| - 1].weight
  }

  /** How many of them speak for the profile. */
  function Positives(signals: seq<Signal>): nat {
    if signals == [] then 0
    else Positives(signals[..|signals| - 1]) + if signals[|signals| - 1].weight > 0 then 1 else 0
  }

  lemma {:induction false} TotalsAgree(signals: seq<Signal>)
    ensures Sum(signals, Weight) == TotalWeight(signals) && Count(signals, Positive) == Positives(signals)
  {
    if signals != [] {
      var before, s := signals[..|signals| - 1], signals[|signals| - 1];
      assert signals == before + [s];
      TotalsAgree(before);
      SumConcat(before, [s], Weight);
      CountConcat(before, [s], Positive);
    }
  }

  /** `x`, or the bound it exceeds. */
  function Held(low: int, high: int, x: int): int { if x < low then low else if x > high then high else x }

  /** A confirmation takes a score of 85 and a hard positive or three positives, a likely profile a score of 60 and two
      positives; a score of 30 or one positive leaves it uncertain, and without any positive the score tells a likely
      false positive from none. */
  predicate Weighed(v: Scored, score: int, positives: nat, hardPositive: bool) {
    && v.score == score
    && (v.status == Confirmed <==> score >= 85 && (hardPositive || positives >= 3))
    && (v.status == Likely <==> score >= 60 && positives >= 2 && !(score >= 85 && (hardPositive || positives >= 3)))
    && (v.status == LikelyFalsePositive <==> 10 <= score < 30 && positives == 0)
    && (v.status == NotFound <==> score < 10 && positives == 0)
    && v.status != Invalid
  }

  lemma DecisionIsWeighed(raw: int, positives: nat, hardPositive: bool, low: bool)
    ensures Weighed(Decide(raw, positives, hardPositive, low), Held(0, if low && !hardPositive then 84 else 100, raw),
                    positives, hardPositive)
  {
  }

  /** What the validators found, apart from the weights. */
  datatype Flags = Flags(
    blocked: bool, login: bool, hardPositive: bool, hardNegative: bool, indistinguishable: bool, low: bool)

  ghost function FlagsOf(signals: seq<Signal>, warnings: set<string>, low: bool): Flags {
    Flags("bot_check" in warnings || exists s :: s in signals && "linkedin_auth" <= s.name,
          "login_required" in warnings || "redirect_to_login" in warnings,
          exists s :: s in signals && s.hardPositive, exists s :: s in signals && s.hardNegative,
          exists s :: s in signals && s.name == "baseline_indistinguishable", low)
  }

  /** The verdict is invalid exactly if the platform kept the validators out. Otherwise an inconclusive login leaves it
      uncertain unless a hard negative speaks against it, which rules everything else out; and where neither applies the
      signals are weighed, their total held between 0 and 100, and below 85 on an unreliable platform without a hard
      positive. */
  predicate Earned(v: Scored, raw: int, positives: nat, f: Flags) {
    var top := if f.low && !f.hardPositive then 84 else 100;
    && (f.blocked <==> v.status == Invalid) && (f.blocked ==> v.score == 0)
    && (!f.blocked && f.hardNegative ==>
          v == Scored(if f.indistinguishable || raw > 0 then LikelyFalsePositive else NotFound, Held(0, 29, raw + 40)))
    && (!f.blocked && !f.hardNegative && f.login ==> v == Scored(Uncertain, Held(30, 59, raw)))
    && (!f.blocked && !f.hardNegative && !f.login ==> Weighed(v, Held(0, top, raw), positives, f.hardPositive))
  }

  /** Every verdict is the one that the signals and warnings have earned. */
  lemma VerdictsAreEarned(signals: seq<Signal>, warnings: set<string>, low: bool)
    ensures Earned(Verdict(signals, warnings, low), TotalWeight(signals), Positives(signals),
                   FlagsOf(signals, warnings, low))
  {
    TotalsAgree(signals);
    var f := FlagsOf(signals, warnings, low);
    assert f.blocked == AuthBlocked(signals, warnings) && f.hardNegative == AnyHardNegative(signals);
    assert f.hardPositive == AnyHardPositive(signals) && f.indistinguishable == Indistinguishable(signals);
    if !f.blocked && !f.hardNegative && !f.login {
      DecisionIsWeighed(TotalWeight(signals), Positives(signals), f.hardPositive, low);
    }
  }
}
