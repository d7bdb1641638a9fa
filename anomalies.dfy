/**
 * `detect_anomalies`, the anomaly count of `_detect_column_anomalies` and
 * `_generate_anomaly_recommendations` of DataValidator
 * (services/orders/features/data_validator.py). The uniform draw behind
 * each column's count is an input; the generated anomaly records
 * themselves are random and are not modelled, only their number.
 */
module Anomalies {
  import opened Wrappers
  import opened Dicts

  const LowSensitivity := "low"
  const MediumSensitivity := "medium"
  const HighSensitivity := "high"

  /** The sensitivity table; any other sensitivity is a KeyError. */
  function Multiplier(sensitivity: string): (m: Option<real>)
    ensures m.Some? <==> sensitivity in [LowSensitivity, MediumSensitivity, HighSensitivity]
  {
    if sensitivity == LowSensitivity then Some(0.5)
    else if sensitivity == MediumSensitivity then Some(1.0)
    else if sensitivity == HighSensitivity then Some(1.5)
    else None
  }

  /** The range of `np.random.uniform(5, 20)`. */
  type UniformDraw = r: real | 5.0 <= r < 20.0 witness 5.0

  /** `int(draw * multiplier)`; the product is positive, so truncation is the floor. */
  function AnomalyCount(draw: UniformDraw, multiplier: real): (n: nat)
    requires multiplier > 0.0
  {
    (draw * multiplier).Floor
  }

  /** The count ranges: 2..9 at low, 5..19 at medium, 7..29 at high sensitivity; never zero. */
  lemma AnomalyCountRange(draw: UniformDraw)
    ensures 2 <= AnomalyCount(draw, 0.5) <= 9
    ensures 5 <= AnomalyCount(draw, 1.0) <= 19
    ensures 7 <= AnomalyCount(draw, 1.5) <= 29
  {
  }

  const AcceptableMessage := "Anomaly levels are within acceptable ranges."

  /** The advice for one column: "High" above 10, "Moderate" from 6 to 10, none up to 5. */
  function ColumnAdvice(column: string, count: nat): (m: seq<string>)
    ensures |m| == if count > 5 then 1 else 0
  {
    if count > 10 then ["High number of anomalies in '" + column + "' - review data collection process"]
    else if count > 5 then ["Moderate anomalies in '" + column + "' - investigate and validate"]
    else []
  }

  /** The advice for the columns `cols` of `results`, in that order. */
  function AnomalyAdvice(results: Dict<string, nat>, cols: seq<string>): seq<string>
    requires forall c :: c in cols ==> c in results.entries
  {
    if cols == [] then []
    else
      var c := cols[|cols| - 1];
      AnomalyAdvice(results, cols[..|cols| - 1]) + ColumnAdvice(c, results.entries[c])
  }

  /** `_generate_anomaly_recommendations`: the advice, or the all-clear message when there is none. */
  function AnomalyRecommendationsOf(results: Dict<string, nat>): seq<string>
    requires results.Valid()
  {
    var advice := AnomalyAdvice(results, results.keys);
    if advice == [] then [AcceptableMessage] else advice
  }

  /** The number of columns of `cols` with more than 5 anomalies. */
  function AdviceCount(results: Dict<string, nat>, cols: seq<string>): (n: nat)
    requires forall c :: c in cols ==> c in results.entries
    ensures n <= |cols|
  {
    if cols == [] then 0
    else
      var c := cols[|cols| - 1];
      AdviceCount(results, cols[..|cols| - 1]) + (if results.entries[c] > 5 then 1 else 0)
  }

  /** No column is counted exactly when none has more than 5 anomalies. */
  lemma {:induction false} AdviceCountZero(results: Dict<string, nat>, cols: seq<string>)
    requires forall c :: c in cols ==> c in results.entries
    ensures AdviceCount(results, cols) == 0 <==> forall i :: 0 <= i < |cols| ==> results.entries[cols[i]] <= 5
  {
    if cols != [] {
      var t := cols[..|cols| - 1];
      assert forall x :: x in t ==> x in cols;
      AdviceCountZero(results, t);
      assert forall i :: 0 <= i < |t| ==> t[i] == cols[i];
    }
  }

  /** One message per counted column. */
  lemma {:induction false} AdviceLength(results: Dict<string, nat>, cols: seq<string>)
    requires forall c :: c in cols ==> c in results.entries
    ensures |AnomalyAdvice(results, cols)| == AdviceCount(results, cols)
  {
    if cols != [] {
      var t := cols[..|cols| - 1];
      assert forall x :: x in t ==> x in cols;
      AdviceLength(results, t);
    }
  }

  /** One message per column above 5; none at all exactly when no column exceeds 5. */
  lemma AnomalyAdviceShape(results: Dict<string, nat>, cols: seq<string>)
    requires forall c :: c in cols ==> c in results.entries
    ensures |AnomalyAdvice(results, cols)| <= |cols|
    ensures AnomalyAdvice(results, cols) == [] <==> forall i :: 0 <= i < |cols| ==> results.entries[cols[i]] <= 5
  {
    AdviceLength(results, cols);
    AdviceCountZero(results, cols);
  }

  /** The all-clear message stands alone exactly when no column has more than 5 anomalies. */
  lemma AnomalyRecommendationsShape(results: Dict<string, nat>)
    requires results.Valid()
    ensures 1 <= |AnomalyRecommendationsOf(results)| <= if |results.keys| == 0 then 1 else |results.keys|
    ensures (forall c :: c in results.entries ==> results.entries[c] <= 5) ==>
      AnomalyRecommendationsOf(results) == [AcceptableMessage]
    ensures (exists c :: c in results.entries && results.entries[c] > 5) ==>
      AnomalyRecommendationsOf(results) == AnomalyAdvice(results, results.keys) != []
  {
    AnomalyAdviceShape(results, results.keys);
    if exists c :: c in results.entries && results.entries[c] > 5 {
      var c :| c in results.entries && results.entries[c] > 5;
      var i :| 0 <= i < |results.keys| && results.keys[i] == c;
    }
  }

  /** One more column of the loop. */
  lemma AdviceSnoc(results: Dict<string, nat>, i: nat)
    requires results.Valid() && i < |results.keys|
    ensures AnomalyAdvice(results, results.keys[..i + 1]) ==
      AnomalyAdvice(results, results.keys[..i]) + ColumnAdvice(results.keys[i], results.entries[results.keys[i]])
  {
    assert results.keys[..i + 1][..i] == results.keys[..i];
  }

  /** `_generate_anomaly_recommendations`, with its loop. */
  method GenerateAnomalyRecommendations(results: Dict<string, nat>) returns (recommendations: seq<string>)
    requires results.Valid()
    ensures recommendations == AnomalyRecommendationsOf(results)
  {
    recommendations := [];
    var i := 0;
    while i < |results.keys|
      invariant 0 <= i <= |results.keys|
      invariant recommendations == AnomalyAdvice(results, results.keys[..i])
    {
      var column := results.keys[i];
      var count := results.entries[column];
      AdviceSnoc(results, i);
      if count > 10 {
        recommendations := recommendations + ["High number of anomalies in '" + column + "' - review data collection process"];
      } else if count > 5 {
        recommendations := recommendations + ["Moderate anomalies in '" + column + "' - investigate and validate"];
      }
      i := i + 1;
    }
    assert results.keys[..i] == results.keys;
    if recommendations == [] {
      recommendations := [AcceptableMessage];
    }
  }

  const DefaultColumns := ["column1", "column2", "column3"]
  const DefaultMethods := ["statistical", "pattern_based"]

  /** The counts per column after the loop of `detect_anomalies`; a repeated column keeps its last count. */
  function CountsOf(columns: seq<string>, multiplier: real, draws: seq<UniformDraw>): (d: Dict<string, nat>)
    requires |draws| == |columns| && multiplier > 0.0
    ensures d.Valid()
    ensures forall c :: c in d.entries <==> c in columns
  {
    if columns == [] then Empty()
    else
      var n := |columns| - 1;
      assert columns == columns[..n] + [columns[n]];
      CountsOf(columns[..n], multiplier, draws[..n]).Put(columns[n], AnomalyCount(draws[n], multiplier))
  }

  function SumCounts(counts: seq<nat>): nat {
    if counts == [] then 0 else SumCounts(counts[..|counts| - 1]) + counts[|counts| - 1]
  }

  /** The loop of `detect_anomalies`, keeping only each column's anomaly count. */
  method CountColumns(columns: seq<string>, multiplier: real, draws: seq<UniformDraw>) returns (counts: Dict<string, nat>)
    requires |draws| == |columns| && multiplier > 0.0
    ensures counts == CountsOf(columns, multiplier, draws)
  {
    counts := Empty();
    var i := 0;
    while i < |columns|
      invariant 0 <= i <= |columns|
      invariant counts == CountsOf(columns[..i], multiplier, draws[..i])
    {
      assert columns[..i + 1][..i] == columns[..i] && draws[..i + 1][..i] == draws[..i];
      counts := counts.Put(columns[i], AnomalyCount(draws[i], multiplier));
      i := i + 1;
    }
    assert columns[..i] == columns && draws[..i] == draws;
  }

  datatype AnomalySummary = AnomalySummary(
    anomalyCounts: Dict<string, nat>,
    totalAnomaliesDetected: nat,
    columnsAnalyzed: nat,
    detectionMethods: seq<string>,
    sensitivityLevel: string,
    recommendations: seq<string>)

  /**
   * `detect_anomalies`, with `None` for a parameter the request leaves out.
   * It fails only when there is a column to analyse: with a KeyError for a
   * sensitivity outside the table, else with a ValueError when the method
   * list is empty (every count is positive, so a method is always drawn).
   */
  method DetectAnomalies(columns: Option<seq<string>>, methods: Option<seq<string>>, sensitivity: Option<string>,
                         draws: seq<UniformDraw>)
    returns (r: Result<AnomalySummary>)
    requires |draws| == |if columns.Some? then columns.value else DefaultColumns|
    ensures var cols := if columns.Some? then columns.value else DefaultColumns;
      var ms := if methods.Some? then methods.value else DefaultMethods;
      var sens := if sensitivity.Some? then sensitivity.value else MediumSensitivity;
      && (r.Failure? <==> cols != [] && (Multiplier(sens).None? || ms == []))
      && (r.Failure? && Multiplier(sens).None? ==> r.error == KeyError(sens))
      && (r.Failure? && Multiplier(sens).Some? ==> r.error == ValueError)
      && (r.Success? && cols != [] ==>
            && r.value.anomalyCounts == CountsOf(cols, Multiplier(sens).value, draws)
            && r.value.totalAnomaliesDetected == SumCounts(r.value.anomalyCounts.Values()))
      && (r.Success? && cols == [] ==> r.value.anomalyCounts == Empty() && r.value.totalAnomaliesDetected == 0)
      && (r.Success? ==>
            && r.value.columnsAnalyzed == |cols|
            && r.value.detectionMethods == ms
            && r.value.sensitivityLevel == sens
            && r.value.recommendations == AnomalyRecommendationsOf(r.value.anomalyCounts))
  {
    var cols := if columns.Some? then columns.value else DefaultColumns;
    var ms := if methods.Some? then methods.value else DefaultMethods;
    var sens := if sensitivity.Some? then sensitivity.value else MediumSensitivity;
    var counts: Dict<string, nat> := Empty();
    if cols != [] {
      var multiplier := Multiplier(sens);
      if multiplier.None? {
        return Failure(KeyError(sens));
      }
      if ms == [] {
        return Failure(ValueError);
      }
      counts := CountColumns(cols, multiplier.value, draws);
    }
    var recommendations := GenerateAnomalyRecommendations(counts);
    r := Success(AnomalySummary(counts, SumCounts(counts.Values()), |cols|, ms, sens, recommendations));
  }
}
