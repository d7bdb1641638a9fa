/**
 * `validate_business_rules` and `_validate_business_rule` of DataValidator
 * (services/orders/features/data_validator.py). The random outcome of each
 * rule is an input.
 */
module BusinessRules {
  import opened Wrappers
  import opened Responses
  import opened QualityChecks

  const RuleIdKey := "rule_id"
  const DescriptionKey := "description"
  const SeverityKey := "severity"
  const DefaultSeverity := "medium"

  /** The range of `np.random.randint(1, 50)`: the upper bound is excluded. */
  type ViolationCount = n: int | 1 <= n < 50 witness 1

  /** The random outcome of one rule: passed, or violated so many times. */
  datatype RuleDraw = RulePassed | RuleViolated(count: ViolationCount)

  datatype RuleResult = RuleResult(
    ruleId: Value,
    description: Value,
    passed: bool,
    violationsCount: nat,
    severity: Value,
    compliancePercentage: real)

  /** `(1 - violations / 1000) * 100` for a violated rule, 100.0 otherwise; rounding is not modelled. */
  function RuleCompliance(violations: nat): real {
    if violations > 0 then (1.0 - violations as real / 1000.0) * 100.0 else 100.0
  }

  /**
   * `_validate_business_rule`: a rule without 'rule_id' raises KeyError for
   * it, then one without 'description'. The violation count is 0 exactly
   * when the rule passed, and so is a compliance of 100.
   */
  function ValidateBusinessRule(rule: map<string, Value>, draw: RuleDraw): (r: Result<RuleResult>)
    ensures RuleIdKey !in rule ==> r == Failure(KeyError(RuleIdKey))
    ensures RuleIdKey in rule && DescriptionKey !in rule ==> r == Failure(KeyError(DescriptionKey))
    ensures r.Success? <==> RuleIdKey in rule && DescriptionKey in rule
    ensures r.Success? ==>
      && r.value.ruleId == rule[RuleIdKey]
      && r.value.description == rule[DescriptionKey]
      && r.value.passed == draw.RulePassed?
      && (r.value.violationsCount == 0 <==> r.value.passed)
      && (draw.RuleViolated? ==> r.value.violationsCount == draw.count)
      && r.value.severity == (if SeverityKey in rule then rule[SeverityKey] else Str(DefaultSeverity))
      && r.value.compliancePercentage == RuleCompliance(r.value.violationsCount)
  {
    var violations: nat := if draw.RulePassed? then 0 else draw.count;
    if RuleIdKey !in rule then Failure(KeyError(RuleIdKey))
    else if DescriptionKey !in rule then Failure(KeyError(DescriptionKey))
    else
      Success(RuleResult(rule[RuleIdKey], rule[DescriptionKey], draw.RulePassed?, violations,
                         if SeverityKey in rule then rule[SeverityKey] else Str(DefaultSeverity),
                         RuleCompliance(violations)))
  }

  /** A violated rule's compliance lies in (95, 100); only a passed rule reaches 100. */
  lemma RuleComplianceRange(draw: RuleDraw)
    ensures draw.RulePassed? ==> RuleCompliance(0) == 100.0
    ensures draw.RuleViolated? ==> 95.0 < RuleCompliance(draw.count) < 100.0
  {
  }

  /** The summary and lists of `validate_business_rules`, without the clock stamp and the rounding. */
  datatype RulesReport = RulesReport(
    complianceRate: real,
    results: seq<RuleResult>,
    totalRulesValidated: nat,
    passedRules: nat,
    failedRules: nat,
    violations: seq<RuleResult>)

  function CountPassedRules(rs: seq<RuleResult>): (n: nat)
    ensures n <= |rs|
  {
    if rs == [] then 0
    else CountPassedRules(rs[..|rs| - 1]) + (if rs[|rs| - 1].passed then 1 else 0)
  }

  /** `[result for result in results if not result['passed']]` */
  function NotPassed(rs: seq<RuleResult>): (fs: seq<RuleResult>)
    ensures forall r :: r in fs ==> r in rs && !r.passed
  {
    if rs == [] then []
    else NotPassed(rs[..|rs| - 1]) + (if rs[|rs| - 1].passed then [] else [rs[|rs| - 1]])
  }

  /** The violations are the results that did not pass, one for each. */
  lemma {:induction false} NotPassedCount(rs: seq<RuleResult>)
    ensures |NotPassed(rs)| == |rs| - CountPassedRules(rs)
  {
    if rs != [] {
      NotPassedCount(rs[..|rs| - 1]);
    }
  }

  /** A rule that makes `_validate_business_rule` raise. */
  predicate Malformed(rule: map<string, Value>) {
    RuleIdKey !in rule || DescriptionKey !in rule
  }

  /** Rule `i` is the first malformed one. */
  predicate FirstMalformed(rs: seq<map<string, Value>>, i: int) {
    0 <= i < |rs| && Malformed(rs[i]) && forall j :: 0 <= j < i ==> !Malformed(rs[j])
  }

  /**
   * `validate_business_rules`: `rules` is `None` when the request leaves
   * it out (an empty list). The first malformed rule makes the whole call
   * fail with its KeyError; otherwise one result per rule, failed = total −
   * passed, the violations are exactly the results that did not pass, and
   * compliance is 100 for an empty list.
   */
  method ValidateBusinessRules(rules: Option<seq<map<string, Value>>>, draws: seq<RuleDraw>)
    returns (r: Result<RulesReport>)
    requires |draws| == |if rules.Some? then rules.value else []|
    ensures var rs := if rules.Some? then rules.value else [];
      && (r.Failure? <==> exists i :: 0 <= i < |rs| && Malformed(rs[i]))
      && (r.Failure? ==> exists i :: FirstMalformed(rs, i) && ValidateBusinessRule(rs[i], draws[i]) == Failure(r.error))
      && (r.Success? ==>
            && |r.value.results| == r.value.totalRulesValidated == |rs|
            && (forall i :: 0 <= i < |rs| ==> Success(r.value.results[i]) == ValidateBusinessRule(rs[i], draws[i]))
            && r.value.passedRules == CountPassedRules(r.value.results)
            && r.value.failedRules == r.value.totalRulesValidated - r.value.passedRules
            && r.value.violations == NotPassed(r.value.results)
            && |r.value.violations| == r.value.failedRules
            && r.value.complianceRate == Percentage(r.value.passedRules, r.value.totalRulesValidated, 100.0))
  {
    var rs := if rules.Some? then rules.value else [];
    var results: seq<RuleResult> := [];
    var i := 0;
    while i < |rs|
      invariant 0 <= i <= |rs|
      invariant |results| == i
      invariant forall j :: 0 <= j < i ==> !Malformed(rs[j]) && Success(results[j]) == ValidateBusinessRule(rs[j], draws[j])
    {
      var outcome := ValidateBusinessRule(rs[i], draws[i]);
      if outcome.Failure? {
        return Failure(outcome.error);
      }
      results := results + [outcome.value];
      i := i + 1;
    }
    var passed := CountPassedRules(results);
    NotPassedCount(results);
    r := Success(RulesReport(Percentage(passed, |results|, 100.0), results, |results|, passed, |results| - passed,
                             NotPassed(results)));
  }

  /** Compliance is 100 for no rules; with rules it lies in [0, 100] and is 100 exactly when all passed. */
  lemma RulesComplianceBounds(passed: nat, total: nat)
    requires passed <= total
    ensures total == 0 ==> Percentage(passed, total, 100.0) == 100.0
    ensures 0.0 <= Percentage(passed, total, 100.0) <= 100.0
    ensures Percentage(passed, total, 100.0) == 100.0 <==> passed == total
  {
    if total > 0 {
      PercentageBounds(passed, total, 100.0);
    }
  }
}
