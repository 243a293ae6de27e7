/** The dashboard's reading of the report (frontend/src/App.js): the pillar
    score, the finding count behind it, the API health card, and the two
    tables that filter a check's rows. Values are the parsed JSON of the
    report; `None` is JavaScript's `undefined`. */
module Dashboard {
  import opened Aws
  import opened Json
  import opened Resources
  import opened AdditionalChecks
  import opened App

  // ---------------------------------------------------------------------
  // calculateScore

  /** `Math.max(1, 5 - Math.floor(findings / 5))` for a finding count. */
  function CalculateScore(findings: nat): int {
    var drop := findings / 5;
    if 5 - drop > 1 then 5 - drop else 1
  }

  /** A score is always between 1 and 5. */
  lemma ScoreRange(findings: nat)
    ensures 1 <= CalculateScore(findings) <= 5
  {
  }

  /** More findings never raise the score. */
  lemma ScoreMonotone(fewer: nat, more: nat)
    requires fewer <= more
    ensures CalculateScore(more) <= CalculateScore(fewer)
  {
    DivMonotone(fewer, more);
  }

  lemma DivMonotone(a: nat, b: nat)
    requires a <= b
    ensures a / 5 <= b / 5
  {
    var qa, qb := a / 5, b / 5;
    assert a == qa * 5 + a % 5 && b == qb * 5 + b % 5;
  }

  /** Fewer than five findings score 5; twenty or more score 1; in between,
      every five more findings cost one point. */
  lemma ScoreSteps(findings: nat)
    ensures findings < 5 ==> CalculateScore(findings) == 5
    ensures findings >= 20 ==> CalculateScore(findings) == 1
    ensures findings < 20 ==> CalculateScore(findings + 5) == CalculateScore(findings) - 1
  {
    assert (findings + 5) / 5 == findings / 5 + 1;
  }

  // ---------------------------------------------------------------------
  // getFindingCount

  /** The values of an object's distinct keys, each key's last value after
      `JSON.parse`. */
  function LiveValues(fields: seq<(string, Json)>): (r: seq<Json>)
    ensures |r| == |Distinct(FieldKeys(fields))|
  {
    var keys := Distinct(FieldKeys(fields));
    seq(|keys|, i requires 0 <= i < |keys| => Lookup(fields, keys[i]).value)
  }

  /** `Object.values(v)`: an object's values, an array's items, a string's
      characters, and nothing for any other value. */
  function ObjectValues(v: Json): seq<Json> {
    match v
    case JObj(fields) => LiveValues(fields)
    case JArr(items) => items
    case JStr(s) => seq(|s|, i requires 0 <= i < |s| => JStr([s[i]]))
    case _ => []
  }

  /** What one value adds to a `.flat()`: an array its items, else itself. */
  function Width(v: Json): nat {
    match v
    case JArr(items) => |items|
    case _ => 1
  }

  /** `values.flat().length`. */
  function FlatLength(values: seq<Json>): nat {
    if values == [] then 0 else Width(values[0]) + FlatLength(values[1..])
  }

  /** `pillarData ? Object.values(pillarData).flat().length : 0`. */
  function FindingCount(pillarData: Option<Json>): nat {
    if pillarData.None? || !Truthy(pillarData.value) then 0
    else FlatLength(ObjectValues(pillarData.value))
  }

  lemma {:induction false} DistinctOfDistinct<T>(s: seq<T>)
    requires NoDuplicates(s)
    ensures Distinct(s) == s
  {
    if s != [] {
      assert NoDuplicates(s[1..]) by {
        forall i, j | 0 <= i < j < |s[1..]| ensures s[1..][i] != s[1..][j] {
          assert s[1..][i] == s[i + 1] && s[1..][j] == s[j + 1];
        }
      }
      DistinctOfDistinct(s[1..]);
      assert s[0] !in s[1..] by {
        forall k | 0 <= k < |s[1..]| ensures s[1..][k] != s[0] {
          assert s[1..][k] == s[k + 1];
        }
      }
      assert s == [s[0]] + s[1..];
    }
  }

  /** With distinct keys, each key is looked up to its own field's value. */
  lemma LookupDistinct(fields: seq<(string, Json)>, i: nat)
    requires NoDuplicates(FieldKeys(fields)) && i < |fields|
    ensures Lookup(fields, fields[i].0) == Some(fields[i].1)
  {
    forall j | i < j < |fields| ensures fields[j].0 != fields[i].0 {
      assert FieldKeys(fields)[i] == fields[i].0 && FieldKeys(fields)[j] == fields[j].0;
    }
    LookupAt(fields, i);
  }

  /** With distinct keys, an object's values are its fields' values. */
  lemma LiveValuesDistinct(fields: seq<(string, Json)>)
    requires NoDuplicates(FieldKeys(fields))
    ensures |LiveValues(fields)| == |fields|
    ensures forall i :: 0 <= i < |fields| ==> LiveValues(fields)[i] == fields[i].1
  {
    DistinctOfDistinct(FieldKeys(fields));
    forall i | 0 <= i < |fields| ensures LiveValues(fields)[i] == fields[i].1 {
      LookupDistinct(fields, i);
    }
  }

  /** The widths of the fields' values, added up. */
  function FieldsWidth(fields: seq<(string, Json)>): nat {
    if fields == [] then 0 else Width(fields[0].1) + FieldsWidth(fields[1..])
  }

  lemma {:induction false} FlatLengthOfValues(values: seq<Json>, fields: seq<(string, Json)>)
    requires |values| == |fields| && forall i :: 0 <= i < |fields| ==> values[i] == fields[i].1
    ensures FlatLength(values) == FieldsWidth(fields)
  {
    if fields != [] {
      FlatLengthOfValues(values[1..], fields[1..]);
    }
  }

  /** `Object.values(obj).flat().length` of an object with distinct keys:
      every list value counts its items, every other value counts one. */
  lemma ObjectCount(fields: seq<(string, Json)>)
    requires NoDuplicates(FieldKeys(fields))
    ensures FindingCount(Some(JObj(fields))) == FieldsWidth(fields)
  {
    LiveValuesDistinct(fields);
    FlatLengthOfValues(LiveValues(fields), fields);
  }

  /** How many rows a check's result adds to its pillar's count: its rows,
      or one for the error dictionary. */
  function Weight<R>(f: Finding<R>): nat {
    match f
    case Rows(rows) => |rows|
    case ErrorDict(_) => 1
  }

  lemma WidthOfFinding<R>(f: Finding<R>, enc: R -> Json)
    ensures Width(FindingJson(f, enc)) == Weight(f)
  {
  }

  /** A missing pillar counts nothing. */
  lemma FindingCountMissing()
    ensures FindingCount(None) == 0
  {
  }

  /** The count the dashboard shows for each pillar of the report: the rows
      of its list-valued checks, plus one per check that answered with an
      error. */
  lemma PillarCounts(c: CheckResults, throttledRequests: int, durationSec: int)
    ensures var report := Report(c, throttledRequests, durationSec);
            FindingCount(Get(report, "reliability")) ==
              Weight(c.rdsMultiAzStatus) + Weight(c.ebsVolumesWithoutBackup) &&
            FindingCount(Get(report, "cost_optimization")) ==
              Weight(c.s3BucketsWithoutLifecycle) + Weight(c.computeOptimizerStatus) + Weight(c.unattachedVolumes) &&
            FindingCount(Get(report, "performance_efficiency")) == Weight(c.ec2WithoutDetailedMonitoring) &&
            FindingCount(Get(report, "operational_excellence")) == Weight(c.cloudformationDriftStatus)
    ensures FindingCount(Get(Report(c, throttledRequests, durationSec), "security")) ==
              |c.usersWithoutMfa| + Weight(c.publicS3Buckets) + Weight(c.unrestrictedSecurityGroups) +
              Weight(c.agedIamKeys) + Weight(c.cloudtrailStatus) + Weight(c.vpcsWithoutFlowLogs)
  {
    PillarLookup(c, throttledRequests, durationSec);
    PillarWidths(c);
  }

  /** The count of each pillar object on its own. */
  lemma PillarWidths(c: CheckResults)
    ensures FindingCount(Some(JObj(Security(c)))) ==
              |c.usersWithoutMfa| + Weight(c.publicS3Buckets) + Weight(c.unrestrictedSecurityGroups) +
              Weight(c.agedIamKeys) + Weight(c.cloudtrailStatus) + Weight(c.vpcsWithoutFlowLogs)
    ensures FindingCount(Some(JObj(Reliability(c)))) ==
              Weight(c.rdsMultiAzStatus) + Weight(c.ebsVolumesWithoutBackup)
    ensures FindingCount(Some(JObj(CostOptimization(c)))) ==
              Weight(c.s3BucketsWithoutLifecycle) + Weight(c.computeOptimizerStatus) + Weight(c.unattachedVolumes)
    ensures FindingCount(Some(JObj(PerformanceEfficiency(c)))) == Weight(c.ec2WithoutDetailedMonitoring)
    ensures FindingCount(Some(JObj(OperationalExcellence(c)))) == Weight(c.cloudformationDriftStatus)
  {
    PillarKeysDistinct(c);
    ObjectCount(Security(c));
    SecurityWidth(c);
    ObjectCount(Reliability(c));
    ObjectCount(CostOptimization(c));
    ObjectCount(PerformanceEfficiency(c));
    ObjectCount(OperationalExcellence(c));
    OtherWidths(c);
  }

  /** No pillar repeats a check key. */
  lemma PillarKeysDistinct(c: CheckResults)
    ensures NoDuplicates(FieldKeys(Security(c)))
    ensures NoDuplicates(FieldKeys(Reliability(c)))
    ensures NoDuplicates(FieldKeys(CostOptimization(c)))
    ensures NoDuplicates(FieldKeys(PerformanceEfficiency(c)))
    ensures NoDuplicates(FieldKeys(OperationalExcellence(c)))
  {
    PillarKeyLists(c);
    KeyListsDistinct();
  }

  lemma KeyListsDistinct()
    ensures NoDuplicates(SecurityKeys) && NoDuplicates(ReliabilityKeys) && NoDuplicates(CostKeys)
    ensures NoDuplicates(PerformanceKeys) && NoDuplicates(OperationsKeys)
  {
  }

  lemma SecurityWidth(c: CheckResults)
    ensures FieldsWidth(Security(c)) ==
              |c.usersWithoutMfa| + Weight(c.publicS3Buckets) + Weight(c.unrestrictedSecurityGroups) +
              Weight(c.agedIamKeys) + Weight(c.cloudtrailStatus) + Weight(c.vpcsWithoutFlowLogs)
  {
    WidthOfFields(Security(c));
    WidthOfFinding(c.publicS3Buckets, BucketJson);
    WidthOfFinding(c.unrestrictedSecurityGroups, RuleJson);
    WidthOfFinding(c.agedIamKeys, KeyJson);
    WidthOfFinding(c.cloudtrailStatus, TrailJson);
    WidthOfFinding(c.vpcsWithoutFlowLogs, StrJson);
  }

  lemma OtherWidths(c: CheckResults)
    ensures FieldsWidth(Reliability(c)) == Weight(c.rdsMultiAzStatus) + Weight(c.ebsVolumesWithoutBackup)
    ensures FieldsWidth(CostOptimization(c)) ==
              Weight(c.s3BucketsWithoutLifecycle) + Weight(c.computeOptimizerStatus) + Weight(c.unattachedVolumes)
    ensures FieldsWidth(PerformanceEfficiency(c)) == Weight(c.ec2WithoutDetailedMonitoring)
    ensures FieldsWidth(OperationalExcellence(c)) == Weight(c.cloudformationDriftStatus)
  {
    WidthOfFields(Reliability(c));
    WidthOfFields(CostOptimization(c));
    WidthOfFields(PerformanceEfficiency(c));
    WidthOfFields(OperationalExcellence(c));
    WidthOfFinding(c.rdsMultiAzStatus, MultiAzJson);
    WidthOfFinding(c.ebsVolumesWithoutBackup, BackupJson);
    WidthOfFinding(c.s3BucketsWithoutLifecycle, StrJson);
    WidthOfFinding(c.computeOptimizerStatus, RightsizingJson);
    WidthOfFinding(c.unattachedVolumes, UnattachedJson);
    WidthOfFinding(c.ec2WithoutDetailedMonitoring, MonitoringJson);
    WidthOfFinding(c.cloudformationDriftStatus, DriftJson);
  }

  /** FieldsWidth written out for the pillar sizes. */
  lemma WidthOfFields(fields: seq<(string, Json)>)
    ensures |fields| == 1 ==> FieldsWidth(fields) == Width(fields[0].1)
    ensures |fields| == 2 ==> FieldsWidth(fields) == Width(fields[0].1) + Width(fields[1].1)
    ensures |fields| == 3 ==> FieldsWidth(fields) == Width(fields[0].1) + Width(fields[1].1) + Width(fields[2].1)
    ensures |fields| == 6 ==>
              FieldsWidth(fields) == Width(fields[0].1) + Width(fields[1].1) + Width(fields[2].1) +
                                     Width(fields[3].1) + Width(fields[4].1) + Width(fields[5].1)
  {
    if |fields| >= 1 {
      var f1 := fields[1..];
      if |f1| >= 1 {
        var f2 := f1[1..];
        if |f2| >= 1 {
          var f3 := f2[1..];
          if |f3| >= 1 {
            var f4 := f3[1..];
            if |f4| >= 1 {
              var f5 := f4[1..];
              if |f5| >= 1 {
                assert FieldsWidth(f5) == Width(f5[0].1) + FieldsWidth(f5[1..]);
              }
            }
          }
        }
      }
    }
  }

  // ---------------------------------------------------------------------
  // ApiHealthCard

  datatype HealthCard = Hidden | Shown(healthy: bool)

  /** `if (!metadata) return null; isHealthy = metadata.status === 'Healthy'`. */
  function ApiHealthCard(metadata: Option<Json>): HealthCard {
    if metadata.None? || !Truthy(metadata.value) then Hidden
    else Shown(Get(metadata.value, "status") == Some(JStr("Healthy")))
  }

  /** The card is shown exactly for truthy metadata, and then healthy
      exactly when the status is "Healthy". */
  lemma HealthCardMeaning(metadata: Json)
    ensures ApiHealthCard(Some(metadata)).Shown? <==> Truthy(metadata)
    ensures Truthy(metadata) ==>
              (ApiHealthCard(Some(metadata)).healthy <==> Get(metadata, "status") == Some(JStr("Healthy")))
    ensures ApiHealthCard(None) == Hidden
  {
  }

  /** For the report, the card is healthy exactly when no request was
      throttled, so also when the throttle count is the error sentinel. */
  lemma HealthCardOfReport(c: CheckResults, throttledRequests: int, durationSec: int)
    ensures ApiHealthCard(Get(Report(c, throttledRequests, durationSec), "scan_metadata")) == Shown(throttledRequests <= 0)
  {
    PillarLookup(c, throttledRequests, durationSec);
    ScanStatusRule(throttledRequests, durationSec);
  }

  // ---------------------------------------------------------------------
  // The filtered tables: `data?.<check>?.filter(x => !x.<field>) || []`

  /** What the table is given, or the TypeError that aborts rendering. */
  datatype Table = Table(rows: seq<Json>) | TypeError

  /** `x.<field>` is truthy; `undefined` on anything but an object. */
  predicate FieldTruthy(x: Json, field: string) {
    Get(x, field).Some? && Truthy(Get(x, field).value)
  }

  /** `items.filter(x => !x.<field>)`: a null item throws. */
  function FilterNot(items: seq<Json>, field: string): Table {
    if items == [] then Table([])
    else if items[0] == JNull then TypeError
    else
      match FilterNot(items[1..], field)
      case TypeError => TypeError
      case Table(rest) => Table((if FieldTruthy(items[0], field) then [] else [items[0]]) + rest)
  }

  /** The table as written: short-circuits on a missing value or null, and
      throws when the value is not an array, since only arrays have
      `filter`. */
  function TableAsWritten(value: Option<Json>, field: string): Table {
    match value
    case None => Table([])
    case Some(JNull) => Table([])
    case Some(JArr(items)) => FilterNot(items, field)
    case Some(_) => TypeError
  }

  /** `Array.isArray(v) ? v.filter(x => !x?.<field>) : []`. */
  function KeepFalsy(items: seq<Json>, field: string): seq<Json> {
    if items == [] then []
    else (if FieldTruthy(items[0], field) then [] else [items[0]]) + KeepFalsy(items[1..], field)
  }

  function TableCorrected(value: Option<Json>, field: string): seq<Json> {
    match value
    case Some(JArr(items)) => KeepFalsy(items, field)
    case _ => []
  }

  /** The CloudTrail check answering with its error dictionary makes the
      dashboard's CloudTrail table throw; so does the RDS check for its
      table. */
  lemma TableAsWrittenThrows(message: string)
    ensures TableAsWritten(Some(FindingJson(ErrorDict(message), TrailJson)), "IsLogging") == TypeError
    ensures TableAsWritten(Some(FindingJson(ErrorDict(message), MultiAzJson)), "IsMultiAZ") == TypeError
  {
  }

  /** The trails that are not logging, in order. */
  function NotLogging(trails: seq<TrailStatus>): seq<TrailStatus> {
    if trails == [] then []
    else (if trails[0].isLogging then [] else [trails[0]]) + NotLogging(trails[1..])
  }

  /** The DB instances without Multi-AZ, in order. */
  function NotMultiAz(instances: seq<MultiAzStatus>): seq<MultiAzStatus> {
    if instances == [] then []
    else (if instances[0].isMultiAZ then [] else [instances[0]]) + NotMultiAz(instances[1..])
  }

  lemma {:induction false} KeepFalsyTrails(trails: seq<TrailStatus>)
    ensures KeepFalsy(ListJson(trails, TrailJson), "IsLogging") == ListJson(NotLogging(trails), TrailJson)
  {
    if trails != [] {
      KeepFalsyTrails(trails[1..]);
      var t := trails[0];
      LookupAt(t.ToJson().fields, 2);
      assert ListJson(trails, TrailJson)[1..] == ListJson(trails[1..], TrailJson);
      var rest := NotLogging(trails[1..]);
      if !t.isLogging {
        assert ListJson([t] + rest, TrailJson) == [TrailJson(t)] + ListJson(rest, TrailJson) by {
          assert ([t] + rest)[1..] == rest;
        }
      }
    }
  }

  lemma {:induction false} KeepFalsyInstances(instances: seq<MultiAzStatus>)
    ensures KeepFalsy(ListJson(instances, MultiAzJson), "IsMultiAZ") == ListJson(NotMultiAz(instances), MultiAzJson)
  {
    if instances != [] {
      KeepFalsyInstances(instances[1..]);
      var db := instances[0];
      LookupAt(db.ToJson().fields, 2);
      assert ListJson(instances, MultiAzJson)[1..] == ListJson(instances[1..], MultiAzJson);
      var rest := NotMultiAz(instances[1..]);
      if !db.isMultiAZ {
        assert ListJson([db] + rest, MultiAzJson) == [MultiAzJson(db)] + ListJson(rest, MultiAzJson) by {
          assert ([db] + rest)[1..] == rest;
        }
      }
    }
  }

  /** On a list of records, as written and corrected agree. */
  lemma {:induction false} FilterNotOfRecords(items: seq<Json>, field: string)
    requires forall i :: 0 <= i < |items| ==> items[i].JObj?
    ensures FilterNot(items, field) == Table(KeepFalsy(items, field))
  {
    if items != [] {
      assert forall i :: 0 <= i < |items[1..]| ==> items[1..][i] == items[i + 1];
      FilterNotOfRecords(items[1..], field);
    }
  }

  /** The corrected CloudTrail table shows exactly the trails that are not
      logging, in order, and nothing when the check failed; while the check
      succeeds, the table as written shows the same. */
  lemma TrailTable(f: Finding<TrailStatus>)
    ensures TableCorrected(Some(FindingJson(f, TrailJson)), "IsLogging") ==
              (match f
               case Rows(trails) => ListJson(NotLogging(trails), TrailJson)
               case ErrorDict(_) => [])
    ensures f.Rows? ==>
              TableAsWritten(Some(FindingJson(f, TrailJson)), "IsLogging") ==
              Table(ListJson(NotLogging(f.rows), TrailJson))
  {
    if f.Rows? {
      KeepFalsyTrails(f.rows);
      FilterNotOfRecords(ListJson(f.rows, TrailJson), "IsLogging");
    }
  }

  /** The same for the RDS table and the Multi-AZ flag. */
  lemma RdsTable(f: Finding<MultiAzStatus>)
    ensures TableCorrected(Some(FindingJson(f, MultiAzJson)), "IsMultiAZ") ==
              (match f
               case Rows(instances) => ListJson(NotMultiAz(instances), MultiAzJson)
               case ErrorDict(_) => [])
    ensures f.Rows? ==>
              TableAsWritten(Some(FindingJson(f, MultiAzJson)), "IsMultiAZ") ==
              Table(ListJson(NotMultiAz(f.rows), MultiAzJson))
  {
    if f.Rows? {
      KeepFalsyInstances(f.rows);
      FilterNotOfRecords(ListJson(f.rows, MultiAzJson), "IsMultiAZ");
    }
  }

  /** The tables read their check's result out of the report. */
  lemma TablesReadReport(c: CheckResults, throttledRequests: int, durationSec: int)
    ensures var report := Report(c, throttledRequests, durationSec);
            Get(report, "security") == Some(JObj(Security(c))) &&
            Get(JObj(Security(c)), "cloudtrail_status") == Some(FindingJson(c.cloudtrailStatus, TrailJson)) &&
            Get(report, "reliability") == Some(JObj(Reliability(c))) &&
            Get(JObj(Reliability(c)), "rds_multi_az_status") == Some(FindingJson(c.rdsMultiAzStatus, MultiAzJson))
  {
    PillarLookup(c, throttledRequests, durationSec);
    CheckKeysHoldResults(c);
    OtherCheckKeysHoldResults(c);
  }
}
