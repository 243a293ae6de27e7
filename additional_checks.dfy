/** The checks of backend/core/additional_checks.py. Each makes its own
    listing call and catches every exception, so each returns either its
    list or `{"error": "<context> Error: <exception text>"}`. */
module AdditionalChecks {
  import opened Aws
  import opened Json
  import opened Resources

  /** Every function of this file ends with `except Exception as e: return
      {"error": f"<context>{e}"}`: a failed listing gives the error dictionary,
      and so does an exception that leaves the loop. */
  function Listed<T, R>(listing: ApiResult<T>, loop: T -> Run<seq<R>>, context: string): Finding<R> {
    match listing
    case Fail(e) => ErrorDict(context + e.text)
    case Ok(items) => Caught(loop(items), context)
  }

  // ---------------------------------------------------------------------
  // check_public_s3_buckets: the policy first, then the ACL.

  const S3Context: string := "Could not check S3 buckets. Error: "
  const ByPolicy: string := "Bucket Policy"
  const ByAcl: string := "ACL Grant"

  /** One bucket. A public policy status adds the entry and skips the ACL
      (`continue`); any ClientError of the policy lookup is ignored; the ACL
      lookup is then made, any failure of it skips the bucket, and the first
      AllUsers grant adds the entry (`break`). Only a policy-lookup failure
      that is not a ClientError leaves the loop. */
  function PolicyOrAclStep(b: Bucket, policy: string -> ApiResult<PolicyStatus>,
                           acl: string -> ApiResult<seq<Grant>>): Step<PublicBucket> {
    match policy(b.name)
    case Fail(OtherError(t)) => Stop(OtherError(t))
    case _ =>
      if policy(b.name) == Ok(PolicyStatus(true)) then Emit([PublicBucket(b.name, ByPolicy)])
      else
        match acl(b.name)
        case Fail(_) => Emit([])
        case Ok(grants) => Emit(if exists g :: g in grants && GrantsAllUsers(g) then [PublicBucket(b.name, ByAcl)] else [])
  }

  function PublicBucketsLoop(buckets: seq<Bucket>, policy: string -> ApiResult<PolicyStatus>,
                             acl: string -> ApiResult<seq<Grant>>): Run<seq<PublicBucket>> {
    if buckets == [] then Returned([])
    else Then(PolicyOrAclStep(buckets[0], policy, acl), PublicBucketsLoop(buckets[1..], policy, acl))
  }

  /** Reference definition of check_public_s3_buckets. */
  function PublicBuckets(listing: ApiResult<seq<Bucket>>, policy: string -> ApiResult<PolicyStatus>,
                         acl: string -> ApiResult<seq<Grant>>): Finding<PublicBucket> {
    Listed(listing, (bs: seq<Bucket>) => PublicBucketsLoop(bs, policy, acl), S3Context)
  }

  /** The grant loop, which stops at the first AllUsers grant. */
  method HasAllUsersGrant(grants: seq<Grant>) returns (found: bool)
    ensures found <==> exists g :: g in grants && GrantsAllUsers(g)
  {
    found := false;
    var j := 0;
    while j < |grants|
      invariant 0 <= j <= |grants|
      invariant forall k :: 0 <= k < j ==> !GrantsAllUsers(grants[k])
    {
      var grant := grants[j];
      if grant.granteeUri.Some? && Contains(grant.granteeUri.value, "AllUsers") {
        found := true;
        break;
      }
      j := j + 1;
    }
  }

  method CheckPublicS3Buckets(listing: ApiResult<seq<Bucket>>, policy: string -> ApiResult<PolicyStatus>,
                              acl: string -> ApiResult<seq<Grant>>) returns (r: Finding<PublicBucket>)
    ensures r == PublicBuckets(listing, policy, acl)
  {
    if listing.Fail? {
      return ErrorDict(S3Context + listing.error.text);
    }
    var buckets := listing.value;
    var publicBuckets: seq<PublicBucket> := [];
    var i := 0;
    assert buckets[0..] == buckets;
    PrependNothing(PublicBucketsLoop(buckets, policy, acl));
    while i < |buckets|
      invariant 0 <= i <= |buckets|
      invariant PublicBucketsLoop(buckets, policy, acl) == Prepend(publicBuckets, PublicBucketsLoop(buckets[i..], policy, acl))
    {
      assert buckets[i..][1..] == buckets[i + 1..];
      assert PublicBucketsLoop(buckets[i..], policy, acl) ==
             Then(PolicyOrAclStep(buckets[i], policy, acl), PublicBucketsLoop(buckets[i + 1..], policy, acl));
      if PolicyOrAclStep(buckets[i], policy, acl).Emit? {
        PrependTwice(publicBuckets, PolicyOrAclStep(buckets[i], policy, acl).rows, PublicBucketsLoop(buckets[i + 1..], policy, acl));
      }
      var name := buckets[i].name;
      var publicByPolicy := false;
      match policy(name) {
        case Ok(ps) =>
          publicByPolicy := ps.isPublic;
        case Fail(e) =>
          if e.OtherError? {
            return ErrorDict(S3Context + e.text);
          }
      }
      if publicByPolicy {
        publicBuckets := publicBuckets + [PublicBucket(name, ByPolicy)];
      } else {
        match acl(name) {
          case Ok(grants) =>
            var found := HasAllUsersGrant(grants);
            if found {
              publicBuckets := publicBuckets + [PublicBucket(name, ByAcl)];
            }
          case Fail(_) =>
        }
      }
      i := i + 1;
    }
    assert publicBuckets + [] == publicBuckets;
    return Rows(publicBuckets);
  }

  function BucketNames(buckets: seq<Bucket>): (r: seq<string>)
    ensures |r| == |buckets| && forall i :: 0 <= i < |buckets| ==> r[i] == buckets[i].name
  {
    if buckets == [] then [] else [buckets[0].name] + BucketNames(buckets[1..])
  }

  function EntryBuckets(entries: seq<PublicBucket>): (r: seq<string>)
    ensures |r| == |entries| && forall i :: 0 <= i < |entries| ==> r[i] == entries[i].bucket
  {
    if entries == [] then [] else [entries[0].bucket] + EntryBuckets(entries[1..])
  }

  /** The entry a bucket earns: by its policy when the policy status is
      public, otherwise by an AllUsers grant when its ACL could be read. */
  predicate EarnsEntry(e: PublicBucket, b: Bucket, policy: string -> ApiResult<PolicyStatus>,
                       acl: string -> ApiResult<seq<Grant>>) {
    e.bucket == b.name &&
    if policy(b.name) == Ok(PolicyStatus(true)) then e.reason == ByPolicy
    else e.reason == ByAcl && acl(b.name).Ok? && exists g :: g in acl(b.name).value && GrantsAllUsers(g)
  }

  lemma PolicyOrAclStepMeaning(b: Bucket, policy: string -> ApiResult<PolicyStatus>, acl: string -> ApiResult<seq<Grant>>)
    ensures PolicyOrAclStep(b, policy, acl).Stop? <==> Escapes(policy(b.name))
    ensures PolicyOrAclStep(b, policy, acl).Emit? ==>
              |PolicyOrAclStep(b, policy, acl).rows| <= 1 &&
              forall e :: e in PolicyOrAclStep(b, policy, acl).rows <==> EarnsEntry(e, b, policy, acl)
  {
  }

  /** The loop leaves early iff some policy lookup fails with something other
      than a ClientError (a ClientError never keeps the ACL from being read).
      Otherwise an entry is reported iff its bucket earns it, and the entries
      follow the buckets, at most one per bucket. */
  lemma {:induction false} PublicBucketsLoopMeaning(buckets: seq<Bucket>, policy: string -> ApiResult<PolicyStatus>,
                                                    acl: string -> ApiResult<seq<Grant>>)
    ensures PublicBucketsLoop(buckets, policy, acl).Raised? <==> exists b :: b in buckets && Escapes(policy(b.name))
    ensures PublicBucketsLoop(buckets, policy, acl).Returned? ==>
              (forall e :: e in PublicBucketsLoop(buckets, policy, acl).value <==>
                             exists b :: b in buckets && EarnsEntry(e, b, policy, acl)) &&
              IsSubsequence(EntryBuckets(PublicBucketsLoop(buckets, policy, acl).value), BucketNames(buckets))
  {
    if buckets != [] {
      PublicBucketsLoopMeaning(buckets[1..], policy, acl);
      assert buckets == [buckets[0]] + buckets[1..];
      var step := PolicyOrAclStep(buckets[0], policy, acl);
      var rest := PublicBucketsLoop(buckets[1..], policy, acl);
      PolicyOrAclStepMeaning(buckets[0], policy, acl);
      assert BucketNames(buckets) == [buckets[0].name] + BucketNames(buckets[1..]);
      if step.Emit? && rest.Returned? {
        if step.rows == [] {
          assert PublicBucketsLoop(buckets, policy, acl).value == rest.value;
          SubsequenceOfCons(EntryBuckets(rest.value), BucketNames(buckets[1..]), buckets[0].name);
        } else {
          var all := PublicBucketsLoop(buckets, policy, acl).value;
          assert all == [step.rows[0]] + rest.value;
          assert EntryBuckets(all) == [buckets[0].name] + EntryBuckets(rest.value);
          assert EntryBuckets(all)[1..] == EntryBuckets(rest.value);
          assert BucketNames(buckets)[1..] == BucketNames(buckets[1..]);
        }
      }
    }
  }

  /** So with distinct bucket names no bucket is reported twice. */
  lemma PublicBucketsNoRepeat(buckets: seq<Bucket>, policy: string -> ApiResult<PolicyStatus>,
                              acl: string -> ApiResult<seq<Grant>>)
    requires NoDuplicates(BucketNames(buckets))
    requires PublicBucketsLoop(buckets, policy, acl).Returned?
    ensures NoDuplicates(EntryBuckets(PublicBucketsLoop(buckets, policy, acl).value))
  {
    PublicBucketsLoopMeaning(buckets, policy, acl);
    SubsequenceNoDuplicates(EntryBuckets(PublicBucketsLoop(buckets, policy, acl).value), BucketNames(buckets));
  }

  // ---------------------------------------------------------------------
  // check_unrestricted_security_groups: one record per open range.

  const SecurityGroupsContext: string := "Could not check security groups. Error: "

  /** `PortRange` is the rule's FromPort alone (a number), or "All". */
  datatype RiskyRule = RiskyRule(groupId: string, groupName: string, fromPort: Option<int>, protocol: string) {
    function ToJson(): Json {
      JObj([("GroupId", JStr(groupId)), ("GroupName", JStr(groupName)),
            ("PortRange", match fromPort case Some(p) => JInt(p) case None => JStr("All")),
            ("Protocol", JStr(protocol))])
    }
  }

  function RiskyRuleOf(sg: SecurityGroup, rule: IpPermission): RiskyRule {
    RiskyRule(sg.groupId, sg.groupName, rule.fromPort, rule.ipProtocol.GetOr("All"))
  }

  function OpenRanges(sg: SecurityGroup, rule: IpPermission, ranges: seq<IpRange>): seq<RiskyRule> {
    if ranges == [] then []
    else (if OpenToWorld(ranges[0]) then [RiskyRuleOf(sg, rule)] else []) + OpenRanges(sg, rule, ranges[1..])
  }

  function OpenRules(sg: SecurityGroup, rules: seq<IpPermission>): seq<RiskyRule> {
    if rules == [] then [] else OpenRanges(sg, rules[0], rules[0].ipRanges) + OpenRules(sg, rules[1..])
  }

  function RiskyRules(groups: seq<SecurityGroup>): seq<RiskyRule> {
    if groups == [] then [] else OpenRules(groups[0], groups[0].ipPermissions) + RiskyRules(groups[1..])
  }

  /** Reference definition of check_unrestricted_security_groups. */
  function UnrestrictedSecurityGroups(listing: ApiResult<seq<SecurityGroup>>): Finding<RiskyRule> {
    match listing
    case Fail(e) => ErrorDict(SecurityGroupsContext + e.text)
    case Ok(groups) => Rows(RiskyRules(groups))
  }

  method OpenRangesOf(sg: SecurityGroup, rule: IpPermission) returns (risky: seq<RiskyRule>)
    ensures risky == OpenRanges(sg, rule, rule.ipRanges)
  {
    risky := [];
    var k := 0;
    assert rule.ipRanges[0..] == rule.ipRanges;
    while k < |rule.ipRanges|
      invariant 0 <= k <= |rule.ipRanges|
      invariant risky + OpenRanges(sg, rule, rule.ipRanges[k..]) == OpenRanges(sg, rule, rule.ipRanges)
    {
      assert rule.ipRanges[k..][1..] == rule.ipRanges[k + 1..];
      if rule.ipRanges[k].cidrIp == Some("0.0.0.0/0") {
        risky := risky + [RiskyRule(sg.groupId, sg.groupName, rule.fromPort, rule.ipProtocol.GetOr("All"))];
      }
      k := k + 1;
    }
    assert rule.ipRanges[k..] == [];
    assert risky + [] == risky;
  }

  method OpenRulesOf(sg: SecurityGroup) returns (risky: seq<RiskyRule>)
    ensures risky == OpenRules(sg, sg.ipPermissions)
  {
    risky := [];
    var rules := sg.ipPermissions;
    var j := 0;
    assert rules[0..] == rules;
    while j < |rules|
      invariant 0 <= j <= |rules|
      invariant risky + OpenRules(sg, rules[j..]) == OpenRules(sg, rules)
    {
      assert rules[j..][1..] == rules[j + 1..];
      var fromRule := OpenRangesOf(sg, rules[j]);
      risky := risky + fromRule;
      j := j + 1;
    }
    assert rules[j..] == [];
    assert risky + [] == risky;
  }

  method CheckUnrestrictedSecurityGroups(listing: ApiResult<seq<SecurityGroup>>) returns (r: Finding<RiskyRule>)
    ensures r == UnrestrictedSecurityGroups(listing)
  {
    if listing.Fail? {
      return ErrorDict(SecurityGroupsContext + listing.error.text);
    }
    var groups := listing.value;
    var risky: seq<RiskyRule> := [];
    var i := 0;
    assert groups[0..] == groups;
    while i < |groups|
      invariant 0 <= i <= |groups|
      invariant risky + RiskyRules(groups[i..]) == RiskyRules(groups)
    {
      assert groups[i..][1..] == groups[i + 1..];
      var fromGroup := OpenRulesOf(groups[i]);
      risky := risky + fromGroup;
      i := i + 1;
    }
    assert groups[i..] == [];
    assert risky + [] == risky;
    return Rows(risky);
  }

  /** A record is reported iff some group has a rule with a 0.0.0.0/0 range;
      it carries the rule's FromPort (or none) and protocol ("All" when
      missing). */
  lemma {:induction false} RiskyRulesMembers(groups: seq<SecurityGroup>)
    ensures forall o :: o in RiskyRules(groups) <==>
                          exists g, p, x :: g in groups && p in g.ipPermissions && x in p.ipRanges && OpenToWorld(x) &&
                                            o == RiskyRuleOf(g, p)
  {
    if groups != [] {
      RiskyRulesMembers(groups[1..]);
      assert groups == [groups[0]] + groups[1..];
      OpenRulesMembers(groups[0], groups[0].ipPermissions);
    }
  }

  lemma {:induction false} OpenRulesMembers(sg: SecurityGroup, rules: seq<IpPermission>)
    ensures forall o :: o in OpenRules(sg, rules) <==>
                          exists p, x :: p in rules && x in p.ipRanges && OpenToWorld(x) && o == RiskyRuleOf(sg, p)
  {
    if rules != [] {
      OpenRulesMembers(sg, rules[1..]);
      assert rules == [rules[0]] + rules[1..];
      OpenRangesMembers(sg, rules[0], rules[0].ipRanges);
    }
  }

  lemma {:induction false} OpenRangesMembers(sg: SecurityGroup, rule: IpPermission, ranges: seq<IpRange>)
    ensures forall o :: o in OpenRanges(sg, rule, ranges) <==>
                          (exists x :: x in ranges && OpenToWorld(x)) && o == RiskyRuleOf(sg, rule)
  {
    if ranges != [] {
      OpenRangesMembers(sg, rule, ranges[1..]);
      assert ranges == [ranges[0]] + ranges[1..];
    }
  }

  // ---------------------------------------------------------------------
  // check_cloudtrail_status: one record per trail, or the error.

  const CloudTrailContext: string := "Could not check CloudTrail status. Error: "

  datatype TrailStatus = TrailStatus(name: string, isMultiRegion: bool, isLogging: bool) {
    function ToJson(): Json {
      JObj([("Name", JStr(name)), ("IsMultiRegion", JBool(isMultiRegion)), ("IsLogging", JBool(isLogging))])
    }
  }

  function TrailStep(t: Trail, status: string -> ApiResult<bool>): Step<TrailStatus> {
    match status(t.trailArn)
    case Ok(logging) => Emit([TrailStatus(t.name, t.isMultiRegionTrail, logging)])
    case Fail(e) => Stop(e)
  }

  function TrailsLoop(trails: seq<Trail>, status: string -> ApiResult<bool>): Run<seq<TrailStatus>> {
    if trails == [] then Returned([]) else Then(TrailStep(trails[0], status), TrailsLoop(trails[1..], status))
  }

  /** Reference definition of check_cloudtrail_status; `status` answers
      get_trail_status for a trail ARN with its IsLogging entry. */
  function CloudTrailStatus(listing: ApiResult<seq<Trail>>, status: string -> ApiResult<bool>): Finding<TrailStatus> {
    Listed(listing, (ts: seq<Trail>) => TrailsLoop(ts, status), CloudTrailContext)
  }

  method CheckCloudTrailStatus(listing: ApiResult<seq<Trail>>, status: string -> ApiResult<bool>)
    returns (r: Finding<TrailStatus>)
    ensures r == CloudTrailStatus(listing, status)
  {
    if listing.Fail? {
      return ErrorDict(CloudTrailContext + listing.error.text);
    }
    var trails := listing.value;
    var trailsStatus: seq<TrailStatus> := [];
    var i := 0;
    assert trails[0..] == trails;
    PrependNothing(TrailsLoop(trails, status));
    while i < |trails|
      invariant 0 <= i <= |trails|
      invariant TrailsLoop(trails, status) == Prepend(trailsStatus, TrailsLoop(trails[i..], status))
    {
      assert trails[i..][1..] == trails[i + 1..];
      assert TrailsLoop(trails[i..], status) == Then(TrailStep(trails[i], status), TrailsLoop(trails[i + 1..], status));
      if TrailStep(trails[i], status).Emit? {
        PrependTwice(trailsStatus, TrailStep(trails[i], status).rows, TrailsLoop(trails[i + 1..], status));
      }
      var t := trails[i];
      match status(t.trailArn) {
        case Ok(logging) =>
          trailsStatus := trailsStatus + [TrailStatus(t.name, t.isMultiRegionTrail, logging)];
        case Fail(e) =>
          return ErrorDict(CloudTrailContext + e.text);
      }
      i := i + 1;
    }
    assert trailsStatus + [] == trailsStatus;
    return Rows(trailsStatus);
  }

  /** One record per trail, in order, each with that trail's logging
      status; a single failed status lookup spoils the whole result. */
  lemma {:induction false} TrailsLoopMeaning(trails: seq<Trail>, status: string -> ApiResult<bool>)
    ensures TrailsLoop(trails, status).Raised? <==> exists t :: t in trails && status(t.trailArn).Fail?
    ensures TrailsLoop(trails, status).Returned? ==>
              var rows := TrailsLoop(trails, status).value;
              |rows| == |trails| &&
              forall i :: 0 <= i < |trails| ==>
                status(trails[i].trailArn).Ok? &&
                rows[i] == TrailStatus(trails[i].name, trails[i].isMultiRegionTrail, status(trails[i].trailArn).value)
  {
    if trails != [] {
      TrailsLoopMeaning(trails[1..], status);
      assert trails == [trails[0]] + trails[1..];
      var rest := TrailsLoop(trails[1..], status);
      if TrailsLoop(trails, status).Returned? {
        var rows := TrailsLoop(trails, status).value;
        assert rows[1..] == rest.value;
        forall i | 1 <= i < |trails|
          ensures rows[i] == TrailStatus(trails[i].name, trails[i].isMultiRegionTrail, status(trails[i].trailArn).value)
        {
          assert rows[i] == rest.value[i - 1];
          assert trails[i] == trails[1..][i - 1];
        }
      }
    }
  }

  // ---------------------------------------------------------------------
  // check_ebs_backup_status: in-use volumes without a snapshot within 7 days.

  const EbsContext: string := "Could not check EBS backups. Error: "
  const BackupWindowDays: int := 7

  datatype VolumeBackup = VolumeBackup(volumeId: string, sizeGiB: int, lastSnapshot: string) {
    function ToJson(): Json {
      JObj([("VolumeId", JStr(volumeId)), ("SizeGiB", JInt(sizeGiB)), ("LastSnapshot", JStr(lastSnapshot))])
    }
  }

  function StartTimes(snapshots: seq<Snapshot>): (r: seq<Timestamp>)
    ensures |r| == |snapshots| && forall i :: 0 <= i < |snapshots| ==> r[i] == snapshots[i].startTime
  {
    if snapshots == [] then [] else [snapshots[0].startTime] + StartTimes(snapshots[1..])
  }

  /** Python's `max` over start times: the first of the latest ones. */
  function Latest(times: seq<Timestamp>): (r: Timestamp)
    requires times != []
    ensures forall i :: 0 <= i < |times| ==> times[i].epoch <= r.epoch
    ensures exists k :: 0 <= k < |times| && times[k] == r && forall j :: 0 <= j < k ==> times[j].epoch < r.epoch
  {
    if |times| == 1 then times[0]
    else
      var init := times[..|times| - 1];
      var m := Latest(init);
      assert forall i :: 0 <= i < |init| ==> init[i] == times[i];
      if times[|times| - 1].epoch > m.epoch then times[|times| - 1] else m
  }

  /** The record of one volume, if it lacks a recent snapshot. */
  function BackupRow(v: Volume, snapshots: seq<Snapshot>, limit: int): seq<VolumeBackup> {
    if snapshots == [] then [VolumeBackup(v.volumeId, v.size, "None")]
    else if Latest(StartTimes(snapshots)).epoch < limit then
      [VolumeBackup(v.volumeId, v.size, Latest(StartTimes(snapshots)).iso)]
    else []
  }

  function BackupStatusStep(v: Volume, snapshots: string -> ApiResult<seq<Snapshot>>, limit: int): Step<VolumeBackup> {
    match snapshots(v.volumeId)
    case Ok(snaps) => Emit(BackupRow(v, snaps, limit))
    case Fail(e) => Stop(e)
  }

  function BackupStatusLoop(volumes: seq<Volume>, snapshots: string -> ApiResult<seq<Snapshot>>, limit: int)
    : Run<seq<VolumeBackup>>
  {
    if volumes == [] then Returned([])
    else Then(BackupStatusStep(volumes[0], snapshots, limit), BackupStatusLoop(volumes[1..], snapshots, limit))
  }

  /** Reference definition of check_ebs_backup_status: `listing` is every
      volume (the in-use filter is applied here); `snapshots` answers
      describe_snapshots for a volume id. */
  function EbsBackupStatus(listing: ApiResult<seq<Volume>>, snapshots: string -> ApiResult<seq<Snapshot>>, limit: int)
    : Finding<VolumeBackup>
  {
    Listed(listing, (vs: seq<Volume>) => BackupStatusLoop(VolumesWithStatus(vs, "in-use"), snapshots, limit), EbsContext)
  }

  /** The latest start time, as the method computes it. */
  method LatestStart(snaps: seq<Snapshot>) returns (latest: Timestamp)
    requires snaps != []
    ensures latest == Latest(StartTimes(snaps))
  {
    latest := snaps[0].startTime;
    var i := 1;
    assert StartTimes(snaps)[..1] == [snaps[0].startTime];
    while i < |snaps|
      invariant 1 <= i <= |snaps|
      invariant latest == Latest(StartTimes(snaps)[..i])
    {
      assert StartTimes(snaps)[..i + 1][..i] == StartTimes(snaps)[..i];
      if snaps[i].startTime.epoch > latest.epoch {
        latest := snaps[i].startTime;
      }
      i := i + 1;
    }
    assert StartTimes(snaps)[..i] == StartTimes(snaps);
  }

  method CheckEbsBackupStatus(listing: ApiResult<seq<Volume>>, snapshots: string -> ApiResult<seq<Snapshot>>, now: int)
    returns (r: Finding<VolumeBackup>)
    ensures r == EbsBackupStatus(listing, snapshots, DaysBefore(now, BackupWindowDays))
  {
    var sevenDaysAgo := now - 7 * SecondsPerDay;
    if listing.Fail? {
      return ErrorDict(EbsContext + listing.error.text);
    }
    var volumes := VolumesWithStatus(listing.value, "in-use");
    var withoutBackup: seq<VolumeBackup> := [];
    var i := 0;
    assert volumes[0..] == volumes;
    PrependNothing(BackupStatusLoop(volumes, snapshots, sevenDaysAgo));
    while i < |volumes|
      invariant 0 <= i <= |volumes|
      invariant BackupStatusLoop(volumes, snapshots, sevenDaysAgo) ==
                Prepend(withoutBackup, BackupStatusLoop(volumes[i..], snapshots, sevenDaysAgo))
    {
      assert volumes[i..][1..] == volumes[i + 1..];
      assert BackupStatusLoop(volumes[i..], snapshots, sevenDaysAgo) ==
             Then(BackupStatusStep(volumes[i], snapshots, sevenDaysAgo), BackupStatusLoop(volumes[i + 1..], snapshots, sevenDaysAgo));
      if BackupStatusStep(volumes[i], snapshots, sevenDaysAgo).Emit? {
        PrependTwice(withoutBackup, BackupStatusStep(volumes[i], snapshots, sevenDaysAgo).rows,
                     BackupStatusLoop(volumes[i + 1..], snapshots, sevenDaysAgo));
      }
      var vol := volumes[i];
      match snapshots(vol.volumeId) {
        case Fail(e) =>
          return ErrorDict(EbsContext + e.text);
        case Ok(snaps) =>
          if snaps == [] {
            withoutBackup := withoutBackup + [VolumeBackup(vol.volumeId, vol.size, "None")];
          } else {
            var latest := LatestStart(snaps);
            if latest.epoch < sevenDaysAgo {
              withoutBackup := withoutBackup + [VolumeBackup(vol.volumeId, vol.size, latest.iso)];
            }
          }
      }
      i := i + 1;
    }
    assert withoutBackup + [] == withoutBackup;
    return Rows(withoutBackup);
  }

  /** What one volume's snapshots make it report. */
  predicate LacksBackup(e: VolumeBackup, v: Volume, snaps: seq<Snapshot>, limit: int) {
    if snaps == [] then e == VolumeBackup(v.volumeId, v.size, "None")
    else (forall s :: s in snaps ==> s.startTime.epoch < limit) &&
         e == VolumeBackup(v.volumeId, v.size, Latest(StartTimes(snaps)).iso)
  }

  lemma BackupRowMeaning(v: Volume, snaps: seq<Snapshot>, limit: int)
    ensures forall e :: e in BackupRow(v, snaps, limit) <==> LacksBackup(e, v, snaps, limit)
  {
    if snaps != [] {
      var latest := Latest(StartTimes(snaps));
      assert (forall s :: s in snaps ==> s.startTime.epoch < limit) <==> latest.epoch < limit by {
        var k :| 0 <= k < |snaps| && StartTimes(snaps)[k] == latest;
        assert snaps[k] in snaps;
        forall s | s in snaps ensures s.startTime.epoch <= latest.epoch {
          var j :| 0 <= j < |snaps| && snaps[j] == s;
          assert StartTimes(snaps)[j] == s.startTime;
        }
      }
    }
  }

  /** A volume is reported iff it has no snapshot or only snapshots that
      started before the limit; the record's LastSnapshot is "None" without
      snapshots and otherwise the latest start time. Any failed snapshot
      lookup spoils the whole result. */
  lemma {:induction false} BackupStatusLoopMembers(volumes: seq<Volume>, snapshots: string -> ApiResult<seq<Snapshot>>,
                                                   limit: int)
    ensures BackupStatusLoop(volumes, snapshots, limit).Raised? <==>
              exists v :: v in volumes && snapshots(v.volumeId).Fail?
    ensures BackupStatusLoop(volumes, snapshots, limit).Returned? ==>
              forall e :: e in BackupStatusLoop(volumes, snapshots, limit).value <==>
                            exists v :: v in volumes && snapshots(v.volumeId).Ok? &&
                                        LacksBackup(e, v, snapshots(v.volumeId).value, limit)
  {
    if volumes != [] {
      BackupStatusLoopMembers(volumes[1..], snapshots, limit);
      assert volumes == [volumes[0]] + volumes[1..];
      if snapshots(volumes[0].volumeId).Ok? {
        BackupRowMeaning(volumes[0], snapshots(volumes[0].volumeId).value, limit);
      }
    }
  }

  // ---------------------------------------------------------------------
  // check_ec2_detailed_monitoring: running instances not "enabled".

  const Ec2Context: string := "Could not check EC2 monitoring. Error: "

  function NotEnabledIn(instances: seq<Instance>): seq<UnmonitoredInstance> {
    if instances == [] then []
    else (if instances[0].monitoringState != Some("enabled") then [Unmonitored(instances[0])] else [])
         + NotEnabledIn(instances[1..])
  }

  function NotEnabled(reservations: seq<Reservation>): seq<UnmonitoredInstance> {
    if reservations == [] then [] else NotEnabledIn(reservations[0].instances) + NotEnabled(reservations[1..])
  }

  /** Reference definition of check_ec2_detailed_monitoring: `listing` holds
      every reservation; the running filter is applied here. */
  function Ec2DetailedMonitoring(listing: ApiResult<seq<Reservation>>): Finding<UnmonitoredInstance> {
    match listing
    case Fail(e) => ErrorDict(Ec2Context + e.text)
    case Ok(reservations) => Rows(NotEnabled(ReservationsInState(reservations, "running")))
  }

  method NotEnabledOf(instances: seq<Instance>) returns (found: seq<UnmonitoredInstance>)
    ensures found == NotEnabledIn(instances)
  {
    found := [];
    var j := 0;
    assert instances[0..] == instances;
    while j < |instances|
      invariant 0 <= j <= |instances|
      invariant found + NotEnabledIn(instances[j..]) == NotEnabledIn(instances)
    {
      assert instances[j..][1..] == instances[j + 1..];
      var inst := instances[j];
      if inst.monitoringState != Some("enabled") {
        found := found + [UnmonitoredInstance(inst.instanceId, FirstNameTag(inst.tags).GetOr(NoName))];
      }
      j := j + 1;
    }
    assert instances[j..] == [];
    assert found + [] == found;
  }

  method CheckEc2DetailedMonitoring(listing: ApiResult<seq<Reservation>>) returns (r: Finding<UnmonitoredInstance>)
    ensures r == Ec2DetailedMonitoring(listing)
  {
    if listing.Fail? {
      return ErrorDict(Ec2Context + listing.error.text);
    }
    var reservations := ReservationsInState(listing.value, "running");
    var found: seq<UnmonitoredInstance> := [];
    var i := 0;
    assert reservations[0..] == reservations;
    while i < |reservations|
      invariant 0 <= i <= |reservations|
      invariant found + NotEnabled(reservations[i..]) == NotEnabled(reservations)
    {
      assert reservations[i..][1..] == reservations[i + 1..];
      var fromReservation := NotEnabledOf(reservations[i].instances);
      found := found + fromReservation;
      i := i + 1;
    }
    assert reservations[i..] == [];
    assert found + [] == found;
    return Rows(found);
  }

  /** An instance is reported iff it is running and its monitoring state is
      anything but "enabled", a missing state included. */
  lemma {:induction false} NotEnabledMembers(reservations: seq<Reservation>)
    ensures forall e :: e in NotEnabled(ReservationsInState(reservations, "running")) <==>
                          exists res, x :: res in reservations && x in res.instances && x.state == "running" &&
                                           x.monitoringState != Some("enabled") && e == Unmonitored(x)
  {
    if reservations != [] {
      NotEnabledMembers(reservations[1..]);
      assert reservations == [reservations[0]] + reservations[1..];
      var filtered := ReservationsInState(reservations, "running");
      assert filtered[1..] == ReservationsInState(reservations[1..], "running");
      assert NotEnabled(filtered) == NotEnabledIn(filtered[0].instances) + NotEnabled(filtered[1..]);
      NotEnabledInMembers(filtered[0].instances);
    }
  }

  lemma {:induction false} NotEnabledInMembers(instances: seq<Instance>)
    ensures forall e :: e in NotEnabledIn(instances) <==>
                          exists x :: x in instances && x.monitoringState != Some("enabled") && e == Unmonitored(x)
  {
    if instances != [] {
      NotEnabledInMembers(instances[1..]);
      assert instances == [instances[0]] + instances[1..];
    }
  }

  // ---------------------------------------------------------------------
  // check_s3_lifecycle_policies: buckets without a lifecycle configuration.

  const LifecycleContext: string := "Could not list S3 buckets. Error: "

  function LifecyclePolicyStep(b: Bucket, lifecycle: string -> ApiResult<LifecycleConfiguration>): Step<string> {
    match lifecycle(b.name)
    case Ok(_) => Emit([])
    case Fail(ClientError(code, _)) => Emit(if code == "NoSuchLifecycleConfiguration" then [b.name] else [])
    case Fail(OtherError(t)) => Stop(OtherError(t))
  }

  function LifecyclePoliciesLoop(buckets: seq<Bucket>, lifecycle: string -> ApiResult<LifecycleConfiguration>)
    : Run<seq<string>>
  {
    if buckets == [] then Returned([])
    else Then(LifecyclePolicyStep(buckets[0], lifecycle), LifecyclePoliciesLoop(buckets[1..], lifecycle))
  }

  /** Reference definition of check_s3_lifecycle_policies. */
  function S3LifecyclePolicies(listing: ApiResult<seq<Bucket>>, lifecycle: string -> ApiResult<LifecycleConfiguration>)
    : Finding<string>
  {
    Listed(listing, (bs: seq<Bucket>) => LifecyclePoliciesLoop(bs, lifecycle), LifecycleContext)
  }

  method CheckS3LifecyclePolicies(listing: ApiResult<seq<Bucket>>, lifecycle: string -> ApiResult<LifecycleConfiguration>)
    returns (r: Finding<string>)
    ensures r == S3LifecyclePolicies(listing, lifecycle)
  {
    if listing.Fail? {
      return ErrorDict(LifecycleContext + listing.error.text);
    }
    var buckets := listing.value;
    var withoutLifecycle: seq<string> := [];
    var i := 0;
    assert buckets[0..] == buckets;
    PrependNothing(LifecyclePoliciesLoop(buckets, lifecycle));
    while i < |buckets|
      invariant 0 <= i <= |buckets|
      invariant LifecyclePoliciesLoop(buckets, lifecycle) ==
                Prepend(withoutLifecycle, LifecyclePoliciesLoop(buckets[i..], lifecycle))
    {
      assert buckets[i..][1..] == buckets[i + 1..];
      assert LifecyclePoliciesLoop(buckets[i..], lifecycle) ==
             Then(LifecyclePolicyStep(buckets[i], lifecycle), LifecyclePoliciesLoop(buckets[i + 1..], lifecycle));
      if LifecyclePolicyStep(buckets[i], lifecycle).Emit? {
        PrependTwice(withoutLifecycle, LifecyclePolicyStep(buckets[i], lifecycle).rows,
                     LifecyclePoliciesLoop(buckets[i + 1..], lifecycle));
      }
      var name := buckets[i].name;
      match lifecycle(name) {
        case Ok(_) =>
        case Fail(e) =>
          if e.OtherError? {
            return ErrorDict(LifecycleContext + e.text);
          }
          if e.code == "NoSuchLifecycleConfiguration" {
            withoutLifecycle := withoutLifecycle + [name];
          }
      }
      i := i + 1;
    }
    assert withoutLifecycle + [] == withoutLifecycle;
    return Rows(withoutLifecycle);
  }

  /** The result is a list iff the listing succeeded and no lifecycle lookup
      failed with something other than a ClientError; then a name is listed
      iff its lookup failed with the NoSuchLifecycleConfiguration code. */
  lemma {:induction false} LifecyclePoliciesMeaning(buckets: seq<Bucket>,
                                                    lifecycle: string -> ApiResult<LifecycleConfiguration>)
    ensures LifecyclePoliciesLoop(buckets, lifecycle).Raised? <==> exists b :: b in buckets && Escapes(lifecycle(b.name))
    ensures LifecyclePoliciesLoop(buckets, lifecycle).Returned? ==>
              forall n :: n in LifecyclePoliciesLoop(buckets, lifecycle).value <==>
                            Bucket(n) in buckets && lifecycle(n).Fail? && lifecycle(n).error.ClientError? &&
                            lifecycle(n).error.code == "NoSuchLifecycleConfiguration"
  {
    if buckets != [] {
      LifecyclePoliciesMeaning(buckets[1..], lifecycle);
      assert buckets == [buckets[0]] + buckets[1..];
    }
  }
}
