# AWS Well-Architected dashboard: the compliance checks, cost analyzers and scores

This project models the core of a dashboard that scans an AWS account against
the pillars of the AWS Well-Architected Framework: security, reliability,
cost optimisation, performance efficiency and operational excellence.

- **Compliance checks.** The Python backend runs a set of checks (MFA, public
  S3 buckets, open security groups, aged access keys, CloudTrail logging, VPC
  flow logs, RDS Multi-AZ, EBS backups, EC2 detailed monitoring, S3 lifecycle
  policies, CloudFormation drift, Compute Optimizer rightsizing, unattached
  volumes, secret rotation).
- **Scan report.** `/api/scan/all` assembles their results into one JSON
  report. The report also carries scan metadata derived from the CloudWatch
  throttling metric.
- **React front end.** It turns the report into pillar scores, finding counts,
  an API health card and finding tables.
- **Cost analyzer.** A separate VPC flow log analyzer sums the bytes sent to
  internet, intra-VPC and inter-AZ destinations.

## How the checks are modelled

Every AWS call is an input.

- A listing is an `ApiResult<T>` value (`Ok(value)` or
  `Fail(ClientError(code, text) | OtherError(text))`).
- A per-item call (such as `list_mfa_devices(UserName=...)`) is a function from
  the item's key to an `ApiResult`.

How a check can end depends on its file:

- **Checks that catch only `ClientError`** (`backend/core/compliance.py`) end
  in a `Run`: either `Returned(rows)`, or `Raised(error)` when an exception
  escapes.
- **Checks with no handler at all** (`core/compliance.py`) also end in a
  `Run`: any failed call raises.
- **Checks that catch every exception** (`additional_checks.py`,
  `advanced_checks.py`, `enhanced_discovery.py`) end in a `Finding`: the list
  `Rows(rows)`, or `ErrorDict(message)`. The message is the fixed prefix
  followed by `str(e)`.

`core/enhanced_discovery.py` repeats `get_unattached_volumes`,
`get_rds_instance_status` and `check_secrets_rotation` of
`backend/core/enhanced_discovery.py`. Only its rightsizing check differs, so
only that one has its own module, `CoreEnhancedDiscovery`; the other three
are modelled by the `EnhancedDiscovery` members for both files.

Each check's loop is a `method` with loop invariants. The method is proved
equal to a reference function that follows the loop item by item. Lemmas then
state, for every input, what that function means:

- which items are reported;
- which failures abort the check and with which error;
- the order of the rows.

The report is a `Json` value whose objects are sequences of key/value
fields. A lookup returns the last field with that key, as a JavaScript object
built from such JSON does.

The modules:

- `Aws`: the shared outcomes.
- `Resources`: the AWS records and shared rules.
- `Json`: the JSON values.
- One module per core source file.

## Model

| member | source | states |
|---|---|---|
| Aws.Distinct | backend/core/compliance.py:64 | the set round trip keeps every element, adds none and leaves no duplicate |
| Aws.SubsequenceLength | core/compliance.py:7-10 | a list filtered from another is never longer than it |
| Json.Lookup | frontend/src/App.js:75 | a key is absent iff no field carries it |
| Json.LookupAt | frontend/src/App.js:75 | a field whose key no later field repeats is what a lookup of that key finds |
| Json.Put | backend/app.py:76 | adding a new key to an object appends it as the last field |
| Json.FirstIndex | backend/app.py:76 | the index of the first field carrying a key that is present |
| Json.PutReplaces | backend/app.py:76 | for a key already present, the object keeps its length, its first field with that key now holds the new value and every other field is unchanged |
| Resources.UserNames | backend/core/compliance.py:18-22 | one name per user, in listing order |
| Resources.AgedKeysOfMembers | backend/core/compliance.py:86-92 | a key is listed iff it is "Active" and created strictly before the age limit |
| Resources.VpcsWithoutFlowLogsMeaning | backend/core/compliance.py:135-139 | a VPC id is listed iff it is some VPC's and no flow log names it, in VPC order |
| Resources.FirstNameTag | backend/core/compliance.py:275 | the value of the first tag keyed "Name", and None iff there is no such tag |
| Resources.VolumesWithStatus | backend/core/enhanced_discovery.py:24 | exactly the volumes whose status is the filter's, never more than were given |
| Resources.ReservationsInState | backend/core/additional_checks.py:83 | every reservation keeps exactly its instances in the filtered state |
| Resources.InstancesInState | backend/core/additional_checks.py:83 | exactly the instances in the filtered state |
| Resources.StacksWithStatus | backend/core/advanced_checks.py:25-27 | exactly the stacks whose status is one of the filter's |
| Compliance.CheckMfa | backend/core/compliance.py:6-25 | the loop's result equals the reference definition of the MFA check |
| Compliance.UsersWithoutMfaMeaning | backend/core/compliance.py:18-25 | raises iff some device lookup fails with a non-ClientError; a user is listed iff the lookup answered an empty device list; the list keeps user order |
| Compliance.AclEntriesMembers | backend/core/compliance.py:45-48 | the grant loop yields the "Public via ACL" entry of the bucket iff some grant names AllUsers, and no other entry |
| Compliance.AllUsersGrantEntries | backend/core/compliance.py:45-48 | the grant loop builds exactly those entries |
| Compliance.CheckPublicS3Buckets | backend/core/compliance.py:27-64 | an escaping error propagates; otherwise the result holds each entry of the loop once and nothing else |
| Compliance.BucketStepMeaning | backend/core/compliance.py:40-62 | a bucket aborts the check iff its ACL lookup, or after a readable ACL its policy lookup, fails with a non-ClientError; otherwise its entries are "Public via ACL" iff a grant names AllUsers and "Public via Bucket Policy" iff the policy status is public |
| Compliance.PublicBucketEntriesMeaning | backend/core/compliance.py:40-62 | the bucket loop raises iff some bucket escapes, and otherwise reports exactly the entries the buckets earn |
| Compliance.AgedKeysOfUser | backend/core/compliance.py:86-92 | the key loop of one user lists exactly that user's aged keys |
| Compliance.CheckIamKeyAge | backend/core/compliance.py:67-95 | the check equals the reference loop with the limit `now - max_age_days` days |
| Compliance.AgedKeysMeaning | backend/core/compliance.py:79-95 | raises iff some key listing fails with a non-ClientError; otherwise a key is listed iff its user's listing succeeded and the key is active and older than the limit |
| Compliance.RangeRulesOf | backend/core/compliance.py:110-117 | the range loop builds the reference rows of one permission |
| Compliance.PermissionRulesOf | backend/core/compliance.py:109-117 | the permission loop builds the reference rows of one group |
| Compliance.CheckUnrestrictedSecurityGroups | backend/core/compliance.py:97-118 | the nested loops build the reference rows |
| Compliance.UnrestrictedRulesMembers | backend/core/compliance.py:107-118 | a row is listed iff some group has a permission with a 0.0.0.0/0 range, with that group's id, name and port range |
| Compliance.PermissionRulesMembers | backend/core/compliance.py:109-117 | the same, for the permissions of one group |
| Compliance.RangeRulesMembers | backend/core/compliance.py:110-117 | the same, for the ranges of one permission |
| Compliance.PortRangeWithoutPorts | backend/core/compliance.py:115 | a permission without ports is shown as "All-All" |
| Compliance.CheckVpcFlowLogs | backend/core/compliance.py:120-142 | lists the VPCs no flow log covers; a ClientError gives the empty list; any other error propagates |
| Compliance.NamedTrails | backend/core/compliance.py:154 | exactly the trails with a non-empty name, in their order |
| Compliance.CheckCloudTrailStatus | backend/core/compliance.py:144-154 | one record per named trail, in order, with its name and its logging flag, false when missing |
| Compliance.CheckS3Lifecycle | backend/core/compliance.py:156-180 | the loop equals the reference definition of the lifecycle check |
| Compliance.BucketsWithoutLifecycleMeaning | backend/core/compliance.py:167-180 | raises iff some named bucket's lookup fails with a non-ClientError; otherwise a name is listed iff its lookup failed with NoSuchLifecycleConfiguration |
| Compliance.CheckComputeOptimizer | backend/core/compliance.py:182-197 | "Active" gives the enrolled report; any other or missing status gives "Not enabled" with the status or "Unknown"; a ClientError gives the error report carrying `str(e)`; anything else propagates |
| Compliance.CheckRdsMultiAz | backend/core/compliance.py:199-215 | one record per instance, with its identifier, engine and Multi-AZ flag |
| Compliance.CheckEbsBackups | backend/core/compliance.py:217-258 | the loop equals the reference definition of the backup check, with the limit `now - backup_age_days` days |
| Compliance.VolumesWithoutRecentBackupMembers | backend/core/compliance.py:240-258 | raises iff a snapshot listing fails with a non-ClientError; a volume is listed iff it has an id, its snapshots were listed and none started after the limit |
| Compliance.CheckEc2DetailedMonitoring | backend/core/compliance.py:260-277 | the loop equals the reference definition of the monitoring check |
| Compliance.DisabledMonitoringMembers | backend/core/compliance.py:270-277 | an instance is listed iff its monitoring state is exactly "disabled", under its first Name tag or "N/A" |
| Compliance.FirstSettled | backend/core/compliance.py:301-308 | the poll stops at the first completed or failed detection, or at the first failed call; it is pending iff every answer was still in progress |
| Compliance.PollDriftDetection | backend/core/compliance.py:301-308 | the `while True` loop over the answers equals that first settled answer |
| Compliance.CheckCloudFormationDrift | backend/core/compliance.py:279-319 | the stack loop equals the reference definition of the drift check |
| Compliance.DriftedStacksMembers | backend/core/compliance.py:292-319 | a stack is listed iff it is named, its detection started and settled, and it reports "DRIFTED" |
| Compliance.DriftedStacksRaised | backend/core/compliance.py:292-318 | the check raises iff some named stack's detection call or one of its status polls fails with a non-ClientError, and then with that error |
| AdditionalChecks.HasAllUsersGrant | backend/core/additional_checks.py:22-25 | the loop that breaks early finds a grant iff some grant is to AllUsers |
| AdditionalChecks.CheckPublicS3Buckets | backend/core/additional_checks.py:5-30 | the loop equals the reference definition, error dictionary included |
| AdditionalChecks.BucketNames | backend/core/additional_checks.py:10 | one name per bucket, in order |
| AdditionalChecks.EntryBuckets | backend/core/additional_checks.py:15 | one bucket name per entry, in order |
| AdditionalChecks.PublicBucketsLoopMeaning | backend/core/additional_checks.py:10-27 | raises iff a policy lookup fails with a non-ClientError; otherwise an entry is listed iff its bucket earns it, by a public policy status first and else by an AllUsers grant, and the entries follow bucket order |
| AdditionalChecks.PolicyOrAclStepMeaning | backend/core/additional_checks.py:11-27 | one bucket aborts iff its policy lookup fails with a non-ClientError, and otherwise yields at most its one earned entry |
| AdditionalChecks.PublicBucketsNoRepeat | backend/core/additional_checks.py:13-25 | with distinct bucket names, no bucket is reported twice |
| AdditionalChecks.OpenRangesOf | backend/core/additional_checks.py:39-44 | the range loop builds the reference rows of one rule |
| AdditionalChecks.OpenRulesOf | backend/core/additional_checks.py:38-44 | the rule loop builds the reference rows of one group |
| AdditionalChecks.CheckUnrestrictedSecurityGroups | backend/core/additional_checks.py:32-47 | the check equals the reference definition, error dictionary included |
| AdditionalChecks.RiskyRulesMembers | backend/core/additional_checks.py:37-44 | a record is listed iff some group has a rule with a 0.0.0.0/0 range, with its FromPort or "All" |
| AdditionalChecks.OpenRulesMembers | backend/core/additional_checks.py:38-44 | the same, for the rules of one group |
| AdditionalChecks.OpenRangesMembers | backend/core/additional_checks.py:39-44 | the same, for the ranges of one rule |
| AdditionalChecks.CheckCloudTrailStatus | backend/core/additional_checks.py:49-61 | the check equals the reference definition, error dictionary included |
| AdditionalChecks.TrailsLoopMeaning | backend/core/additional_checks.py:53-61 | fails iff some trail's status lookup fails; otherwise one record per trail, in order, with its multi-region flag and logging state |
| AdditionalChecks.StartTimes | backend/core/additional_checks.py:71 | one start time per snapshot, in order |
| AdditionalChecks.Latest | backend/core/additional_checks.py:71-74 | `max` is at least every start time and is the first of the latest ones |
| AdditionalChecks.LatestStart | backend/core/additional_checks.py:74 | the loop computes that maximum |
| AdditionalChecks.CheckEbsBackupStatus | backend/core/additional_checks.py:63-78 | the check equals the reference definition with a seven-day limit |
| AdditionalChecks.BackupRowMeaning | backend/core/additional_checks.py:71-75 | a volume is reported iff it has no snapshot or every snapshot started before the limit; LastSnapshot is "None" or the latest start time |
| AdditionalChecks.BackupStatusLoopMembers | backend/core/additional_checks.py:66-75 | fails iff a snapshot listing fails; otherwise the rows are exactly the volumes that lack a backup |
| AdditionalChecks.NotEnabledOf | backend/core/additional_checks.py:86-91 | the instance loop builds the reference rows |
| AdditionalChecks.CheckEc2DetailedMonitoring | backend/core/additional_checks.py:80-94 | the check equals the reference definition, error dictionary included |
| AdditionalChecks.NotEnabledMembers | backend/core/additional_checks.py:83-91 | an instance is listed iff it is running and its monitoring state is not "enabled" (missing counts), under its first Name tag or "N/A" |
| AdditionalChecks.NotEnabledInMembers | backend/core/additional_checks.py:86-91 | the same, for the instances of one reservation |
| AdditionalChecks.CheckS3LifecyclePolicies | backend/core/additional_checks.py:96-110 | the check equals the reference definition, error dictionary included |
| AdditionalChecks.LifecyclePoliciesMeaning | backend/core/additional_checks.py:100-110 | the loop fails iff some lookup fails with a non-ClientError; otherwise a bucket is listed iff its lookup failed with NoSuchLifecycleConfiguration |
| AdvancedChecks.CheckVpcFlowLogs | backend/core/advanced_checks.py:5-19 | the check equals the reference definition |
| AdvancedChecks.VpcFlowLogsMeaning | backend/core/advanced_checks.py:9-19 | either listing failing gives the error dictionary; otherwise the rows are exactly the VPCs no flow log covers, in order |
| AdvancedChecks.DriftOfStack | backend/core/advanced_checks.py:30-40 | one stack's detection run gives its reference rows |
| AdvancedChecks.DriftRowsOf | backend/core/advanced_checks.py:29-42 | the stack loop builds the reference rows |
| AdvancedChecks.CheckCloudFormationStackDrift | backend/core/advanced_checks.py:21-45 | the check equals the reference definition, error dictionary included |
| AdvancedChecks.DriftRowsMembers | backend/core/advanced_checks.py:29-42 | a stack is reported iff its detection started, completed as "DETECTION_COMPLETE" and says "DRIFTED", with its reason or ""; a failing or failed detection skips the stack |
| AdvancedChecks.StackDriftMeaning | backend/core/advanced_checks.py:21-45 | the error dictionary appears iff the stack listing fails; otherwise a stack is reported iff its status is one of the three examined ones and its detection completed as drifted |
| AdvancedChecks.DriftRowsAsWrittenWithoutWaiter | backend/core/advanced_checks.py:33 | when the client knows no drift waiter, the stack loop as written reports no stack |
| AdvancedChecks.DriftRowsAsWrittenWithWaiter | backend/core/advanced_checks.py:29-42 | when it does, the loop as written is the intended one |
| AdvancedChecks.DriftAsWrittenReportsNothing | backend/core/advanced_checks.py:21-45 | as written, with CloudFormation's waiters the check gives the error dictionary on a failed listing and otherwise always the empty list |
| AdvancedChecks.DriftAsWrittenWithWaiter | backend/core/advanced_checks.py:21-45 | with a client that defines the waiter the check as written equals the intended one |
| AdvancedChecks.KeysPastLimit | backend/core/advanced_checks.py:56-61 | the key loop of one user lists exactly the aged keys |
| AdvancedChecks.CheckIamAccessKeyAge | backend/core/advanced_checks.py:47-64 | the check equals the reference definition with a 90-day limit |
| AdvancedChecks.OldKeysLoopMeaning | backend/core/advanced_checks.py:50-63 | any failed lookup aborts the check; otherwise a key is listed iff it is active and older than the limit |
| EnhancedDiscovery.GetEc2RightsizingRecommendations | backend/core/enhanced_discovery.py:5-19 | the loop equals the reference definition, error dictionary included |
| EnhancedDiscovery.OverProvisionedOf | backend/core/enhanced_discovery.py:11 | exactly the over-provisioned recommendations, in order |
| EnhancedDiscovery.RightsizingLoopRaised | backend/core/enhanced_discovery.py:10-16 | the loop fails iff some over-provisioned recommendation has no option, and then with "list index out of range" |
| EnhancedDiscovery.RightsizingLoopRows | backend/core/enhanced_discovery.py:10-16 | otherwise one row per over-provisioned recommendation, in order, with its first option's type |
| EnhancedDiscovery.RightsizingFails | backend/core/enhanced_discovery.py:7-19 | the error dictionary appears iff the call fails or such an optionless recommendation exists |
| EnhancedDiscovery.UnattachedRows | backend/core/enhanced_discovery.py:26-30 | one row per volume with its id, size and creation time |
| EnhancedDiscovery.GetUnattachedVolumes | backend/core/enhanced_discovery.py:21-33 | a failed call gives the error dictionary; otherwise one row per "available" volume |
| EnhancedDiscovery.MultiAzRows | backend/core/enhanced_discovery.py:40-44 | one record per DB instance with its fields copied |
| EnhancedDiscovery.GetRdsInstanceStatus | backend/core/enhanced_discovery.py:35-47 | a failed call gives the error dictionary; otherwise one Multi-AZ record per instance |
| EnhancedDiscovery.RotationRows | backend/core/enhanced_discovery.py:54-58 | one record per secret, rotation enabled iff the secret says true |
| EnhancedDiscovery.CheckSecretsRotation | backend/core/enhanced_discovery.py:49-61 | a failed call gives the error dictionary; otherwise one rotation record per secret |
| CoreEnhancedDiscovery.GetEc2RightsizingRecommendations | core/enhanced_discovery.py:34-57 | the loop equals the reference definition, error dictionary included |
| CoreEnhancedDiscovery.CoreRightsizingLoopRaised | core/enhanced_discovery.py:46-54 | the loop fails iff some over-provisioned recommendation has no option, and then with "list index out of range" |
| CoreEnhancedDiscovery.CoreRightsizingLoopRows | core/enhanced_discovery.py:46-54 | otherwise one row per over-provisioned recommendation, in order, carrying its finding and first option's type |
| CoreEnhancedDiscovery.CoreRightsizingFails | core/enhanced_discovery.py:41-57 | the error dictionary appears iff the call fails or such an optionless recommendation exists |
| CoreCompliance.CheckMfa | core/compliance.py:3-11 | the loop equals the reference definition of the MFA check |
| CoreCompliance.MfaLoopMeaning | core/compliance.py:7-10 | raises iff some device lookup fails; otherwise a user is listed iff it has no MFA device, in user order |
| CoreCompliance.UsersWithoutMfaMeaning | core/compliance.py:3-11 | also raises iff the user listing fails; never lists more names than users |
| VpcLogParser.StripLeft | cost/vpc_log_parser.py:17 | the result is no longer than the text and does not start with whitespace |
| VpcLogParser.StripRight | cost/vpc_log_parser.py:17 | the result is a prefix of the text that does not end with whitespace |
| VpcLogParser.StripLeftDropsSpace | cost/vpc_log_parser.py:17 | the result is a suffix of the text and every character dropped in front is whitespace |
| VpcLogParser.StripRightDropsSpace | cost/vpc_log_parser.py:17 | every character dropped at the end is whitespace |
| VpcLogParser.ParseInt | cost/vpc_log_parser.py:17 | a field that is blank after stripping whitespace never parses |
| VpcLogParser.ParseIntText | cost/vpc_log_parser.py:17 | reading back any integer's decimal text gives that integer |
| VpcLogParser.ParseIntRejects | cost/vpc_log_parser.py:17 | empty and sign-only fields, doubled or leading underscores and trailing letters are rejected |
| VpcLogParser.ParseIntRejectsSeparator | cost/vpc_log_parser.py:17 | a byte field that starts or ends with one of the separators 0x1c to 0x1f is rejected, since `int()` does not treat them as whitespace |
| VpcLogParser.ParseIntAcceptsSpace | cost/vpc_log_parser.py:17 | surrounding whitespace is ignored |
| VpcLogParser.ParseIntAcceptsUnderscore | cost/vpc_log_parser.py:17 | a single underscore between digits is accepted and ignored |
| VpcLogParser.ParseIntAcceptsSign | cost/vpc_log_parser.py:17 | a leading sign is honoured |
| VpcLogParser.HasPrefixInMeaning | cost/vpc_log_parser.py:18-20 | `any(startswith)` holds iff some prefix starts the address |
| VpcLogParser.CategoryMeaning | cost/vpc_log_parser.py:18-23 | public prefixes win, then private ones, everything else is inter-AZ |
| VpcLogParser.CategoryIsTextual | cost/vpc_log_parser.py:7-8 | the categories follow text prefixes, not address ranges |
| VpcLogParser.AddTo | cost/vpc_log_parser.py:19-23 | adding bytes to a category changes that total alone |
| VpcLogParser.AnalyzeVpcTransferCost | cost/vpc_log_parser.py:10-25 | the row loop computes the reference summary |
| VpcLogParser.ReceivesSnoc | cost/vpc_log_parser.py:14-25 | a category receives bytes from a longer log iff it did before or from the new row |
| VpcLogParser.SummaryKeysMeaning | cost/vpc_log_parser.py:11-25 | a category is in the summary iff some valid row falls into it |
| VpcLogParser.SummaryTotals | cost/vpc_log_parser.py:14-25 | each summary entry is the total bytes of the valid rows of its category |
| VpcLogParser.TotalWithoutRows | cost/vpc_log_parser.py:14-25 | a category no valid row falls into totals zero |
| VpcLogParser.SummaryKeys | cost/vpc_log_parser.py:19-23 | only internet, intra_vpc and inter_az appear |
| VpcLogParser.SkippedRowsChangeNothing | cost/vpc_log_parser.py:15-25 | malformed rows are skipped: the summary equals that of the valid rows alone |
| CloudWatchAnalyzer.ThrottleQueries | backend/cost/cloudwatch_analyzer.py:37-55 | one query per service, in order |
| CloudWatchAnalyzer.BuildThrottleQueries | backend/cost/cloudwatch_analyzer.py:37-55 | the enumerate loop builds those queries |
| CloudWatchAnalyzer.QueriesAsked | backend/cost/cloudwatch_analyzer.py:37-55 | every query reads AWS/Usage CallCount of its service's ThrottledRequests with a daily Sum, and returns data |
| CloudWatchAnalyzer.ServiceQueryIds | backend/cost/cloudwatch_analyzer.py:40 | the five ids are "throttling0" to "throttling4" |
| CloudWatchAnalyzer.NatTextInjective | backend/cost/cloudwatch_analyzer.py:40 | distinct indices render to distinct texts |
| CloudWatchAnalyzer.QueryIdsDistinct | backend/cost/cloudwatch_analyzer.py:38-40 | no two queries share an id |
| CloudWatchAnalyzer.GetApiThrottleEvents | backend/cost/cloudwatch_analyzer.py:25-72 | the result is the sum over the last 24 hours of the five queries, or -1 on failure |
| CloudWatchAnalyzer.ThrottleEventsSentinel | backend/cost/cloudwatch_analyzer.py:68-72 | -1 iff the call fails; a successful call gives a non-negative count |
| CloudWatchAnalyzer.SumAppend | backend/cost/cloudwatch_analyzer.py:64-66 | the sum of concatenated values is the sum of the sums |
| CloudWatchAnalyzer.ThrottledIsSumOfAllValues | backend/cost/cloudwatch_analyzer.py:64-66 | the count is the sum of every value of every result |
| App.GetAllScans | backend/app.py:43-81 | the report holds the five pillars and then "scan_metadata" |
| App.ReportKeys | backend/app.py:43-81 | the report's keys are the five pillars and "scan_metadata", without duplicates |
| App.PillarKeys | backend/app.py:44-66 | each pillar is an object with exactly its checks' keys (6, 2, 3, 1 and 1 of them) |
| App.PillarKeyLists | backend/app.py:44-66 | the key order in each pillar |
| App.PillarLookup | backend/app.py:43-81 | each top-level key looks up its pillar or the metadata |
| App.CheckKeysHoldResults | backend/app.py:44-51 | each of the six security keys holds the JSON of the matching check's result |
| App.OtherCheckKeysHoldResults | backend/app.py:52-66 | each of the seven reliability, cost, performance and operations keys holds the JSON of the matching check's result |
| App.ScanStatusRule | backend/app.py:76-81 | "Throttled" iff throttled requests are positive, otherwise "Healthy" (the -1 error value included); the successful count is 14 |
| Dashboard.ScoreRange | frontend/src/App.js:74 | a score lies between 1 and 5 |
| Dashboard.ScoreMonotone | frontend/src/App.js:74 | more findings never raise the score |
| Dashboard.DivMonotone | frontend/src/App.js:74 | floor division by five is monotone |
| Dashboard.ScoreSteps | frontend/src/App.js:74 | fewer than five findings score 5, twenty or more score 1, five more findings drop one point until then |
| Dashboard.LiveValues | frontend/src/App.js:75 | one value per distinct key |
| Dashboard.DistinctOfDistinct | frontend/src/App.js:75 | a list without duplicates is its own distinct list |
| Dashboard.LookupDistinct | frontend/src/App.js:75 | with distinct keys each key finds its own field |
| Dashboard.LiveValuesDistinct | frontend/src/App.js:75 | with distinct keys `Object.values` is the field values in order |
| Dashboard.FlatLengthOfValues | frontend/src/App.js:75 | `flat().length` counts an array's elements and one for any other value |
| Dashboard.ObjectCount | frontend/src/App.js:75 | the count of an object with distinct keys is the sum of its values' widths |
| Dashboard.WidthOfFinding | frontend/src/App.js:75 | a check's list counts its rows, its error dictionary counts one |
| Dashboard.FindingCountMissing | frontend/src/App.js:75 | a missing pillar counts zero findings |
| Dashboard.PillarCounts | frontend/src/App.js:75-111 | each pillar's count is the sum of its checks' weights |
| Dashboard.PillarWidths | frontend/src/App.js:75 | the same, stated on the pillar fields |
| Dashboard.PillarKeysDistinct | backend/app.py:44-66 | no pillar repeats a key |
| Dashboard.SecurityWidth | frontend/src/App.js:75 | the security count adds up its six checks |
| Dashboard.OtherWidths | frontend/src/App.js:75 | the other pillars' counts add up their checks |
| Dashboard.WidthOfFields | frontend/src/App.js:75 | the width of fields is the sum of their values' widths |
| Dashboard.HealthCardMeaning | frontend/src/App.js:65-68 | missing or falsy metadata hides the card; truthy metadata shows it, healthy iff its status is "Healthy" |
| Dashboard.HealthCardOfReport | frontend/src/App.js:65-68 | on a report the card is shown, healthy iff throttled requests are at most zero |
| Dashboard.TableAsWrittenThrows | frontend/src/App.js:129-149 | as written, an error dictionary in the trail or RDS slot throws a TypeError |
| Dashboard.KeepFalsyTrails | frontend/src/App.js:129 | the filter keeps exactly the trails that are not logging |
| Dashboard.KeepFalsyInstances | frontend/src/App.js:149 | the filter keeps exactly the instances that are not Multi-AZ |
| Dashboard.FilterNotOfRecords | frontend/src/App.js:129-149 | over records the throwing filter and the corrected one agree |
| Dashboard.TrailTable | frontend/src/App.js:129 | the corrected table shows exactly the non-logging trails, and nothing on error; as written it agrees on a list |
| Dashboard.RdsTable | frontend/src/App.js:149 | the corrected table shows exactly the non-Multi-AZ instances, and nothing on error; as written it agrees on a list |
| Dashboard.TablesReadReport | frontend/src/App.js:129-149 | the tables read the matching report slots |

## Left out

- AWS clients, boto3 sessions and the network. Every call's answer is an input.
- Flask, CORS, `custom_serializer` and the HTTP response. The report is a JSON value, not serialised text.
- The check callers in `backend/app.py`. `GetAllScans` takes the checks' results as parameters. It does not model that `backend/app.py:45` calls `check_mfa()` without the users argument that `backend/core/compliance.py:6` requires.
- Floating point:
  - `get_cost_by_service`;
  - `estimated_monthly_savings` in `core/enhanced_discovery.py`;
  - the per-GB cost conversion and rounding at the end of `analyze_vpc_transfer_cost`;
  - `get_data_transfer_cost`;
  - the rounded scan duration, which is a parameter.
- CloudWatch `Values` are modelled as naturals. The `int(...)` of a float sum is therefore the identity.
- `time.sleep` in the `while True` poll of `backend/core/compliance.py`. The answers of that poll are a finite trace. A stack whose trace ends without a completed or failed detection contributes nothing.
- The waiter's own polling in `backend/core/advanced_checks.py`. `settle` gives the status once the waiter returns; a failed detection or a waiter that gives up raises, which skips the stack.
- KeyError paths. Fields the API always returns are plain fields of the records. A `.get(...)` default is modelled as an `Option`.
- `print` diagnostics in the `except` handlers.
- The gzip and CSV reading of flow logs. Rows arrive already split on spaces.
- VpcLogParser.ParseInt: covers ASCII text only, with tab to carriage return and space as whitespace. Python's Unicode whitespace and Unicode digits are not modelled. Neither is the limit of 4300 digits that recent CPython releases put on `int()` of a string; the model accepts longer digit strings.
- VpcLogParser.AnalyzeVpcTransferCost: the summary is a map, so the insertion order of its keys is not modelled.
- Dashboard.LiveValues: does not model the order of `Object.values`. It keeps each repeated key at its last occurrence, and the remaining keys in field order. JavaScript keeps each key at its first position and lists integer-like keys first, in ascending order. Only the order-independent count is used, and the report has no repeated or integer-like keys.
- Timestamps compare by epoch seconds. Their ISO rendering is an opaque string, and start and end time formats are not modelled.
- React rendering, Chart.js, the security doughnut counts, and the pages other than their table filters.
- The command line tools, the war mapper, the architecture export, `core/discovery.py` and the auth manager. None of them is part of this model.

## Findings

| source | as written | input that shows it | evidently intended | confidence | as-written member | corrected member |
|---|---|---|---|---|---|---|
| frontend/src/App.js:129 | `data?.cloudtrail_status?.filter(...)` calls `filter` on whatever the check returned | `check_cloudtrail_status` fails and returns `{"error": ...}`; an object has no `filter`, so rendering throws a TypeError | show an empty table, as the `\|\| []` fallback suggests | not executed | Dashboard.TableAsWrittenThrows | Dashboard.TrailTable |
| frontend/src/App.js:149 | `data?.rds_multi_az_status?.filter(...)` likewise | `get_rds_instance_status` fails and returns `{"error": ...}` | show an empty table | not executed | Dashboard.TableAsWrittenThrows | Dashboard.RdsTable |
| backend/core/advanced_checks.py:33 | `cfn.get_waiter('stack_drift_detection_complete')` | any stack whose detection starts: botocore's CloudFormation waiters are `change_set_create_complete`, `stack_create_complete`, `stack_delete_complete`, `stack_exists`, `stack_import_complete`, `stack_rollback_complete`, `stack_update_complete` and `type_registration_complete`, so `get_waiter` raises ValueError, `except Exception: continue` skips the stack and the check reports `[]` whatever drifted | wait until the drift detection completes, then report the drifted stacks | not executed; the waiter list is botocore's as recalled, not read from an installed copy | AdvancedChecks.DriftAsWrittenReportsNothing | AdvancedChecks.StackDriftMeaning |
