/**
 * `validate_schema` and `_validate_column_schema` of DataValidator
 * (services/orders/features/data_validator.py). Each random pass/fail
 * choice is an input.
 */
module SchemaValidation {
  import opened Wrappers
  import opened Dicts
  import opened Responses
  import opened QualityChecks
  import opened Text

  /** One entry of a column's 'validated_rules'. */
  datatype RuleCheck = RuleCheck(rule: string, expected: Value, status: string)

  /** One entry of a column's 'violations'. */
  datatype RuleViolation = RuleViolation(rule: string, expected: Value, description: string)

  /** The result `_validate_column_schema` returns. */
  datatype ColumnResult = ColumnResult(
    columnName: string,
    status: string,
    validatedRules: seq<RuleCheck>,
    violations: seq<RuleViolation>)

  /** The choices drawn for one column: the column's own outcome, then one per rule. */
  datatype ColumnDraw = ColumnDraw(columnPassed: bool, rulePassed: seq<bool>)

  function ViolationText(column: string, rule: string): string {
    "Column " + column + " violates " + rule + " constraint"
  }

  /** The violation entries of the failed rule checks, in order. */
  function ViolationsOf(column: string, checks: seq<RuleCheck>): (vs: seq<RuleViolation>)
    ensures |vs| <= |checks|
  {
    if checks == [] then []
    else
      var c := checks[|checks| - 1];
      ViolationsOf(column, checks[..|checks| - 1])
        + (if c.status == FailStatus then [RuleViolation(c.rule, c.expected, ViolationText(column, c.rule))] else [])
  }

  /** One more rule check, drawn as `passed`: a violation is added exactly when it failed. */
  lemma ViolationsSnoc(column: string, checks: seq<RuleCheck>, rule: string, expected: Value, passed: bool)
    ensures ViolationsOf(column, checks + [RuleCheck(rule, expected, PassFail(passed))]) == ViolationsOf(column, checks)
      + (if passed then [] else [RuleViolation(rule, expected, ViolationText(column, rule))])
  {
    var c := RuleCheck(rule, expected, PassFail(passed));
    assert (checks + [c])[..|checks + [c]| - 1] == checks;
  }

  function CountFailedChecks(checks: seq<RuleCheck>): (n: nat)
    ensures n <= |checks|
  {
    if checks == [] then 0
    else CountFailedChecks(checks[..|checks| - 1]) + (if checks[|checks| - 1].status == FailStatus then 1 else 0)
  }

  /** One violation per failed rule, each naming that rule. */
  lemma {:induction false} ViolationsCount(column: string, checks: seq<RuleCheck>)
    ensures |ViolationsOf(column, checks)| == CountFailedChecks(checks)
    ensures forall v :: v in ViolationsOf(column, checks) ==>
      v.description == ViolationText(column, v.rule) && RuleCheck(v.rule, v.expected, FailStatus) in checks
  {
    if checks != [] {
      var t := checks[..|checks| - 1];
      ViolationsCount(column, t);
      assert forall c :: c in t ==> c in checks;
    }
  }

  /** The rule checks for the given rules and values, drawn as `passed`, in rule order. */
  function RuleChecks(rules: seq<string>, values: seq<Value>, passed: seq<bool>): (cs: seq<RuleCheck>)
    requires |values| == |rules| == |passed|
    ensures |cs| == |rules|
    ensures forall i :: 0 <= i < |rules| ==> cs[i] == RuleCheck(rules[i], values[i], PassFail(passed[i]))
  {
    seq(|rules|, i requires 0 <= i < |rules| => RuleCheck(rules[i], values[i], PassFail(passed[i])))
  }

  /** The result `_validate_column_schema` builds for the given rules and draws. */
  function ColumnResultOf(columnName: string, rules: Dict<string, Value>, draw: ColumnDraw): (r: ColumnResult)
    requires rules.Valid() && |draw.rulePassed| == |rules.keys|
    ensures r.columnName == columnName && r.status == PassFail(draw.columnPassed)
  {
    var checks := RuleChecks(rules.keys, rules.Values(), draw.rulePassed);
    ColumnResult(columnName, PassFail(draw.columnPassed), checks, ViolationsOf(columnName, checks))
  }

  /**
   * `_validate_column_schema`: one rule check per schema rule, in rule
   * order; a violation for each failed rule. The column's own status comes
   * from its own draw, so it does not depend on the rule outcomes, and
   * `strictMode` affects nothing.
   */
  method ValidateColumnSchema(columnName: string, rules: Dict<string, Value>, strictMode: bool, draw: ColumnDraw)
    returns (result: ColumnResult)
    requires rules.Valid() && |draw.rulePassed| == |rules.keys|
    ensures result.columnName == columnName
    ensures result.status == PassFail(draw.columnPassed)
    ensures |result.validatedRules| == |rules.keys|
    ensures forall i :: 0 <= i < |rules.keys| ==>
      result.validatedRules[i] == RuleCheck(rules.keys[i], rules.entries[rules.keys[i]], PassFail(draw.rulePassed[i]))
    ensures result.violations == ViolationsOf(columnName, result.validatedRules)
    ensures result == ColumnResultOf(columnName, rules, draw)
  {
    var values := rules.Values();
    var checks: seq<RuleCheck> := [];
    var violations: seq<RuleViolation> := [];
    var i := 0;
    while i < |rules.keys|
      invariant 0 <= i <= |rules.keys|
      invariant checks == RuleChecks(rules.keys, values, draw.rulePassed)[..i]
      invariant violations == ViolationsOf(columnName, checks)
    {
      var name := rules.keys[i];
      var c := RuleCheck(name, values[i], PassFail(draw.rulePassed[i]));
      ViolationsSnoc(columnName, checks, name, values[i], draw.rulePassed[i]);
      PrefixSnoc(RuleChecks(rules.keys, values, draw.rulePassed), checks, i, c);
      checks := checks + [c];
      if !draw.rulePassed[i] {
        violations := violations + [RuleViolation(name, values[i], ViolationText(columnName, name))];
      }
      i := i + 1;
    }
    assert checks == RuleChecks(rules.keys, values, draw.rulePassed);
    result := ColumnResult(columnName, PassFail(draw.columnPassed), checks, violations);
  }

  /** The summary and lists of `validate_schema`, without the clock stamp and the rounding. */
  datatype SchemaReport = SchemaReport(
    compliancePercentage: real,
    results: seq<ColumnResult>,
    totalColumnsValidated: nat,
    passedValidations: nat,
    failedValidations: nat,
    strictMode: bool,
    violations: seq<ColumnResult>)

  function CountPassedColumns(rs: seq<ColumnResult>): (n: nat)
    ensures n <= |rs|
  {
    if rs == [] then 0
    else CountPassedColumns(rs[..|rs| - 1]) + (if rs[|rs| - 1].status == PassStatus then 1 else 0)
  }

  /** `[result for result in results if result['status'] == 'fail']` */
  function FailedColumns(rs: seq<ColumnResult>): (fs: seq<ColumnResult>)
    ensures forall r :: r in fs ==> r in rs && r.status == FailStatus
  {
    if rs == [] then []
    else FailedColumns(rs[..|rs| - 1]) + (if rs[|rs| - 1].status == FailStatus then [rs[|rs| - 1]] else [])
  }

  /** When every status is 'pass' or 'fail', the failed columns are all the columns that did not pass. */
  lemma {:induction false} FailedColumnsCount(rs: seq<ColumnResult>)
    requires forall i :: 0 <= i < |rs| ==> rs[i].status == PassStatus || rs[i].status == FailStatus
    ensures |FailedColumns(rs)| == |rs| - CountPassedColumns(rs)
  {
    if rs != [] {
      var t := rs[..|rs| - 1];
      assert forall i :: 0 <= i < |t| ==> t[i] == rs[i];
      FailedColumnsCount(t);
    }
  }

  ghost predicate SchemaWellFormed(schema: Dict<string, Dict<string, Value>>) {
    schema.Valid() && forall c :: c in schema.entries ==> schema.entries[c].Valid()
  }

  /** The draws fit the schema: one per column, with one choice per rule of that column. */
  ghost predicate DrawsFit(schema: Dict<string, Dict<string, Value>>, draws: seq<ColumnDraw>)
    requires SchemaWellFormed(schema)
  {
    |draws| == |schema.keys| &&
    forall i :: 0 <= i < |draws| ==> |draws[i].rulePassed| == |schema.entries[schema.keys[i]].keys|
  }

  /** The per-column results of `validate_schema`, in schema order. */
  function SchemaResults(schema: Dict<string, Dict<string, Value>>, draws: seq<ColumnDraw>): (rs: seq<ColumnResult>)
    requires SchemaWellFormed(schema) && DrawsFit(schema, draws)
    ensures |rs| == |schema.keys|
    ensures forall i :: 0 <= i < |schema.keys| ==>
      rs[i] == ColumnResultOf(schema.keys[i], schema.entries[schema.keys[i]], draws[i])
  {
    seq(|schema.keys|, i requires 0 <= i < |schema.keys| =>
      ColumnResultOf(schema.keys[i], schema.entries[schema.keys[i]], draws[i]))
  }

  /** The column loop of `validate_schema`: one `_validate_column_schema` result per column, in schema order. */
  method ValidateColumns(s: Dict<string, Dict<string, Value>>, strict: bool, draws: seq<ColumnDraw>)
    returns (results: seq<ColumnResult>)
    requires SchemaWellFormed(s) && DrawsFit(s, draws)
    ensures results == SchemaResults(s, draws)
  {
    results := [];
    var i := 0;
    while i < |s.keys|
      invariant 0 <= i <= |s.keys|
      invariant results == SchemaResults(s, draws)[..i]
    {
      var name := s.keys[i];
      assert name in s.entries;
      var r := ValidateColumnSchema(name, s.entries[name], strict, draws[i]);
      PrefixSnoc(SchemaResults(s, draws), results, i, r);
      results := results + [r];
      i := i + 1;
    }
    assert results == SchemaResults(s, draws)[..i];
  }

  /**
   * The report of `validate_schema` for a schema and its draws: one result
   * per schema column; failed = total − passed; the violations are exactly
   * the failed results; compliance is 0 for an empty schema.
   */
  function SchemaReportOf(s: Dict<string, Dict<string, Value>>, strict: bool, draws: seq<ColumnDraw>): (report: SchemaReport)
    requires SchemaWellFormed(s) && DrawsFit(s, draws)
    ensures report.totalColumnsValidated == |report.results| == |s.keys|
    ensures forall i :: 0 <= i < |s.keys| ==>
      report.results[i].columnName == s.keys[i] && report.results[i].status == PassFail(draws[i].columnPassed)
    ensures forall i :: 0 <= i < |s.keys| ==> report.results[i] == ColumnResultOf(s.keys[i], s.entries[s.keys[i]], draws[i])
    ensures report.passedValidations == CountPassedColumns(report.results)
    ensures report.failedValidations == report.totalColumnsValidated - report.passedValidations
    ensures report.violations == FailedColumns(report.results)
    ensures |report.violations| == report.failedValidations
    ensures report.compliancePercentage == Percentage(report.passedValidations, report.totalColumnsValidated, 0.0)
    ensures report.strictMode == strict
  {
    var results := SchemaResults(s, draws);
    var passed := CountPassedColumns(results);
    FailedColumnsCount(results);
    SchemaReport(Percentage(passed, |results|, 0.0), results, |results|, passed, |results| - passed,
                 strict, FailedColumns(results))
  }

  /**
   * `validate_schema`: `schema` and `strictMode` are `None` when the
   * request leaves them out (an empty schema and `False`).
   */
  method ValidateSchema(schema: Option<Dict<string, Dict<string, Value>>>, strictMode: Option<bool>, draws: seq<ColumnDraw>)
    returns (report: SchemaReport)
    requires var s := if schema.Some? then schema.value else Empty(); SchemaWellFormed(s) && DrawsFit(s, draws)
    ensures var s := if schema.Some? then schema.value else Empty();
      report == SchemaReportOf(s, strictMode.Some? && strictMode.value, draws)
  {
    var s: Dict<string, Dict<string, Value>> := if schema.Some? then schema.value else Empty();
    var strict := strictMode.Some? && strictMode.value;
    var results := ValidateColumns(s, strict, draws);
    var passed := CountPassedColumns(results);
    report := SchemaReport(Percentage(passed, |results|, 0.0), results, |results|, passed, |results| - passed,
                           strict, FailedColumns(results));
  }

  /** The compliance lies in [0, 100] and is 100 exactly when the schema is non-empty and every column passed. */
  lemma ComplianceBounds(passed: nat, total: nat)
    requires passed <= total
    ensures 0.0 <= Percentage(passed, total, 0.0) <= 100.0
    ensures Percentage(passed, total, 0.0) == 100.0 <==> total > 0 && passed == total
  {
    if total > 0 {
      PercentageBounds(passed, total, 0.0);
    }
  }
}
