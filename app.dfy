/** get_all_scans of backend/app.py: the report the dashboard fetches. The
    thirteen check results it gathers are inputs here, already computed; the
    report places each under its pillar and check key, then adds the scan
    metadata derived from the throttle count. */
module App {
  import opened Aws
  import opened Json
  import opened Resources
  import opened AdditionalChecks
  import opened AdvancedChecks
  import opened EnhancedDiscovery

  /** What each check returned, typed as its model returns it. */
  datatype CheckResults = CheckResults(
    usersWithoutMfa: seq<string>,
    publicS3Buckets: Finding<PublicBucket>,
    unrestrictedSecurityGroups: Finding<RiskyRule>,
    agedIamKeys: Finding<AgedKey>,
    cloudtrailStatus: Finding<TrailStatus>,
    vpcsWithoutFlowLogs: Finding<string>,
    rdsMultiAzStatus: Finding<MultiAzStatus>,
    ebsVolumesWithoutBackup: Finding<VolumeBackup>,
    s3BucketsWithoutLifecycle: Finding<string>,
    computeOptimizerStatus: Finding<Rightsizing>,
    unattachedVolumes: Finding<UnattachedVolume>,
    ec2WithoutDetailedMonitoring: Finding<UnmonitoredInstance>,
    cloudformationDriftStatus: Finding<DriftRow>)

  /** How each row type serialises. */
  function StrJson(s: string): Json {
    JStr(s)
  }

  function BucketJson(x: PublicBucket): Json {
    x.ToJson()
  }

  function RuleJson(x: RiskyRule): Json {
    x.ToJson()
  }

  function KeyJson(x: AgedKey): Json {
    x.ToJson()
  }

  function TrailJson(x: TrailStatus): Json {
    x.ToJson()
  }

  function MultiAzJson(x: MultiAzStatus): Json {
    x.ToJson()
  }

  function BackupJson(x: VolumeBackup): Json {
    x.ToJson()
  }

  function RightsizingJson(x: Rightsizing): Json {
    x.ToJson()
  }

  function UnattachedJson(x: UnattachedVolume): Json {
    x.ToJson()
  }

  function MonitoringJson(x: UnmonitoredInstance): Json {
    x.ToJson()
  }

  function DriftJson(x: DriftRow): Json {
    x.ToJson()
  }

  /** The pillars, in the order the report lists them. */
  const Pillars: seq<string> :=
    ["security", "reliability", "cost_optimization", "performance_efficiency", "operational_excellence"]

  const SecurityKeys: seq<string> :=
    ["users_without_mfa", "public_s3_buckets", "unrestricted_security_groups", "aged_iam_keys",
     "cloudtrail_status", "vpcs_without_flow_logs"]
  const ReliabilityKeys: seq<string> := ["rds_multi_az_status", "ebs_volumes_without_backup"]
  const CostKeys: seq<string> := ["s3_buckets_without_lifecycle", "compute_optimizer_status", "unattached_volumes"]
  const PerformanceKeys: seq<string> := ["ec2_without_detailed_monitoring"]
  const OperationsKeys: seq<string> := ["cloudformation_drift_status"]

  /** The number of calls the metadata reports as successful, whatever the
      checks did. */
  const SuccessfulRequests: int := 14

  function Security(c: CheckResults): seq<(string, Json)> {
    [("users_without_mfa", JArr(ListJson(c.usersWithoutMfa, StrJson))),
     ("public_s3_buckets", FindingJson(c.publicS3Buckets, BucketJson)),
     ("unrestricted_security_groups", FindingJson(c.unrestrictedSecurityGroups, RuleJson)),
     ("aged_iam_keys", FindingJson(c.agedIamKeys, KeyJson)),
     ("cloudtrail_status", FindingJson(c.cloudtrailStatus, TrailJson)),
     ("vpcs_without_flow_logs", FindingJson(c.vpcsWithoutFlowLogs, StrJson))]
  }

  function Reliability(c: CheckResults): seq<(string, Json)> {
    [("rds_multi_az_status", FindingJson(c.rdsMultiAzStatus, MultiAzJson)),
     ("ebs_volumes_without_backup", FindingJson(c.ebsVolumesWithoutBackup, BackupJson))]
  }

  function CostOptimization(c: CheckResults): seq<(string, Json)> {
    [("s3_buckets_without_lifecycle", FindingJson(c.s3BucketsWithoutLifecycle, StrJson)),
     ("compute_optimizer_status", FindingJson(c.computeOptimizerStatus, RightsizingJson)),
     ("unattached_volumes", FindingJson(c.unattachedVolumes, UnattachedJson))]
  }

  function PerformanceEfficiency(c: CheckResults): seq<(string, Json)> {
    [("ec2_without_detailed_monitoring", FindingJson(c.ec2WithoutDetailedMonitoring, MonitoringJson))]
  }

  function OperationalExcellence(c: CheckResults): seq<(string, Json)> {
    [("cloudformation_drift_status", FindingJson(c.cloudformationDriftStatus, DriftJson))]
  }

  /** The `all_findings` dictionary literal. */
  function AllFindings(c: CheckResults): seq<(string, Json)> {
    [("security", JObj(Security(c))),
     ("reliability", JObj(Reliability(c))),
     ("cost_optimization", JObj(CostOptimization(c))),
     ("performance_efficiency", JObj(PerformanceEfficiency(c))),
     ("operational_excellence", JObj(OperationalExcellence(c)))]
  }

  /** "Throttled" when the throttle count is positive, else "Healthy". */
  function ScanStatus(throttledRequests: int): string {
    if throttledRequests > 0 then "Throttled" else "Healthy"
  }

  /** The `scan_metadata` entry; the scan's duration, read from the clock,
      is a parameter. */
  function ScanMetadata(throttledRequests: int, durationSec: int): Json {
    JObj([("status", JStr(ScanStatus(throttledRequests))),
          ("throttled_requests", JInt(throttledRequests)),
          ("successful_requests", JInt(SuccessfulRequests)),
          ("last_scan_duration_sec", JInt(durationSec))])
  }

  /** The report: the five pillars, then the metadata as the last field. */
  function Report(c: CheckResults, throttledRequests: int, durationSec: int): Json {
    JObj(AllFindings(c) + [("scan_metadata", ScanMetadata(throttledRequests, durationSec))])
  }

  /** get_all_scans: the findings, with the metadata added in place. */
  method GetAllScans(c: CheckResults, throttledRequests: int, durationSec: int) returns (report: Json)
    ensures report == Report(c, throttledRequests, durationSec)
  {
    var allFindings := AllFindings(c);
    assert "scan_metadata" !in FieldKeys(allFindings);
    allFindings := Put(allFindings, "scan_metadata", ScanMetadata(throttledRequests, durationSec));
    report := JObj(allFindings);
  }

  /** The report's keys are the five pillars and then scan_metadata, each
      once. */
  lemma ReportKeys(c: CheckResults, throttledRequests: int, durationSec: int)
    ensures Keys(Report(c, throttledRequests, durationSec)) == Pillars + ["scan_metadata"]
    ensures NoDuplicates(Keys(Report(c, throttledRequests, durationSec)))
  {
    var keys := Keys(Report(c, throttledRequests, durationSec));
    assert keys == Pillars + ["scan_metadata"];
  }

  /** Each pillar holds its fixed check keys: six for security, two for
      reliability, three for cost, one each for performance and operations. */
  lemma PillarKeys(c: CheckResults, throttledRequests: int, durationSec: int)
    ensures var report := Report(c, throttledRequests, durationSec);
            Get(report, "security").Some? && Keys(Get(report, "security").value) == SecurityKeys &&
            Get(report, "reliability").Some? && Keys(Get(report, "reliability").value) == ReliabilityKeys &&
            Get(report, "cost_optimization").Some? && Keys(Get(report, "cost_optimization").value) == CostKeys &&
            Get(report, "performance_efficiency").Some? &&
            Keys(Get(report, "performance_efficiency").value) == PerformanceKeys &&
            Get(report, "operational_excellence").Some? &&
            Keys(Get(report, "operational_excellence").value) == OperationsKeys
    ensures |SecurityKeys| == 6 && |ReliabilityKeys| == 2 && |CostKeys| == 3
    ensures |PerformanceKeys| == 1 && |OperationsKeys| == 1
  {
    PillarLookup(c, throttledRequests, durationSec);
    PillarKeyLists(c);
  }

  lemma PillarKeyLists(c: CheckResults)
    ensures FieldKeys(Security(c)) == SecurityKeys
    ensures FieldKeys(Reliability(c)) == ReliabilityKeys
    ensures FieldKeys(CostOptimization(c)) == CostKeys
    ensures FieldKeys(PerformanceEfficiency(c)) == PerformanceKeys
    ensures FieldKeys(OperationalExcellence(c)) == OperationsKeys
  {
  }

  /** Each top-level key holds its pillar, and scan_metadata the metadata. */
  lemma PillarLookup(c: CheckResults, throttledRequests: int, durationSec: int)
    ensures var fields := Report(c, throttledRequests, durationSec).fields;
            Lookup(fields, "security") == Some(JObj(Security(c))) &&
            Lookup(fields, "reliability") == Some(JObj(Reliability(c))) &&
            Lookup(fields, "cost_optimization") == Some(JObj(CostOptimization(c))) &&
            Lookup(fields, "performance_efficiency") == Some(JObj(PerformanceEfficiency(c))) &&
            Lookup(fields, "operational_excellence") == Some(JObj(OperationalExcellence(c))) &&
            Lookup(fields, "scan_metadata") == Some(ScanMetadata(throttledRequests, durationSec))
  {
    var fields := Report(c, throttledRequests, durationSec).fields;
    ReportKeys(c, throttledRequests, durationSec);
    forall i | 0 <= i < |fields| ensures Lookup(fields, fields[i].0) == Some(fields[i].1) {
      assert FieldKeys(fields)[i] == fields[i].0;
      forall j | i < j < |fields| ensures fields[j].0 != fields[i].0 {
        assert FieldKeys(fields)[j] == fields[j].0;
      }
      LookupAt(fields, i);
    }
    assert fields[0].0 == "security" && fields[1].0 == "reliability" && fields[2].0 == "cost_optimization";
    assert fields[3].0 == "performance_efficiency" && fields[4].0 == "operational_excellence";
    assert fields[5].0 == "scan_metadata";
  }

  /** Each security check key holds its check's result. */
  lemma CheckKeysHoldResults(c: CheckResults)
    ensures Lookup(Security(c), "users_without_mfa") == Some(JArr(ListJson(c.usersWithoutMfa, StrJson)))
    ensures Lookup(Security(c), "public_s3_buckets") ==
              Some(FindingJson(c.publicS3Buckets, BucketJson))
    ensures Lookup(Security(c), "unrestricted_security_groups") ==
              Some(FindingJson(c.unrestrictedSecurityGroups, RuleJson))
    ensures Lookup(Security(c), "aged_iam_keys") == Some(FindingJson(c.agedIamKeys, KeyJson))
    ensures Lookup(Security(c), "cloudtrail_status") ==
              Some(FindingJson(c.cloudtrailStatus, TrailJson))
    ensures Lookup(Security(c), "vpcs_without_flow_logs") == Some(FindingJson(c.vpcsWithoutFlowLogs, StrJson))
  {
    var s := Security(c);
    LookupAt(s, 0);
    LookupAt(s, 1);
    LookupAt(s, 2);
    LookupAt(s, 3);
    LookupAt(s, 4);
    LookupAt(s, 5);
  }

  /** Each check key of the other four pillars holds its check's result. */
  lemma OtherCheckKeysHoldResults(c: CheckResults)
    ensures Lookup(Reliability(c), "rds_multi_az_status") ==
              Some(FindingJson(c.rdsMultiAzStatus, MultiAzJson))
    ensures Lookup(Reliability(c), "ebs_volumes_without_backup") ==
              Some(FindingJson(c.ebsVolumesWithoutBackup, BackupJson))
    ensures Lookup(CostOptimization(c), "s3_buckets_without_lifecycle") ==
              Some(FindingJson(c.s3BucketsWithoutLifecycle, StrJson))
    ensures Lookup(CostOptimization(c), "compute_optimizer_status") ==
              Some(FindingJson(c.computeOptimizerStatus, RightsizingJson))
    ensures Lookup(CostOptimization(c), "unattached_volumes") ==
              Some(FindingJson(c.unattachedVolumes, UnattachedJson))
    ensures Lookup(PerformanceEfficiency(c), "ec2_without_detailed_monitoring") ==
              Some(FindingJson(c.ec2WithoutDetailedMonitoring, MonitoringJson))
    ensures Lookup(OperationalExcellence(c), "cloudformation_drift_status") ==
              Some(FindingJson(c.cloudformationDriftStatus, DriftJson))
  {
    LookupAt(Reliability(c), 0);
    LookupAt(Reliability(c), 1);
    var k := CostOptimization(c);
    LookupAt(k, 0);
    LookupAt(k, 1);
    LookupAt(k, 2);
    LookupAt(PerformanceEfficiency(c), 0);
    LookupAt(OperationalExcellence(c), 0);
  }

  /** The status is "Throttled" exactly when the count is positive; the
      sentinel -1 of a failed metric call therefore shows as "Healthy". */
  lemma ScanStatusRule(throttledRequests: int, durationSec: int)
    ensures var meta := ScanMetadata(throttledRequests, durationSec);
            (Get(meta, "status") == Some(JStr("Throttled")) <==> throttledRequests > 0) &&
            (Get(meta, "status") == Some(JStr("Healthy")) <==> throttledRequests <= 0) &&
            Get(meta, "throttled_requests") == Some(JInt(throttledRequests)) &&
            Get(meta, "successful_requests") == Some(JInt(14))
    ensures throttledRequests == -1 ==> ScanStatus(throttledRequests) == "Healthy"
  {
    var fields := ScanMetadata(throttledRequests, durationSec).fields;
    LookupAt(fields, 0);
    LookupAt(fields, 1);
    LookupAt(fields, 2);
  }
}
