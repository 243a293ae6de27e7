/** The records the AWS APIs answer with, reduced to the fields the checks
    read, and the rules that more than one check applies to them.
    A field the API always returns is a plain field; a field the checks
    read with a `.get(...)` default because the API may leave it out is an
    `Option`. */
module Resources {
  import opened Aws
  import opened Json

  // IAM
  datatype User = User(userName: string)
  datatype MfaDevice = MfaDevice(serialNumber: string)
  datatype AccessKey = AccessKey(accessKeyId: string, status: string, createDate: Timestamp)

  // S3
  datatype Bucket = Bucket(name: string)
  /** One ACL grant; `granteeUri` is the grantee's "URI" entry, present for
      group grantees only. */
  datatype Grant = Grant(granteeUri: Option<string>)
  datatype PolicyStatus = PolicyStatus(isPublic: bool)
  datatype LifecycleConfiguration = LifecycleConfiguration(ruleCount: nat)

  // EC2 and VPC
  datatype IpRange = IpRange(cidrIp: Option<string>)
  datatype IpPermission = IpPermission(
    ipProtocol: Option<string>, fromPort: Option<int>, toPort: Option<int>, ipRanges: seq<IpRange>)
  datatype SecurityGroup = SecurityGroup(groupId: string, groupName: string, ipPermissions: seq<IpPermission>)
  datatype Vpc = Vpc(vpcId: string)
  datatype FlowLog = FlowLog(resourceId: string)
  datatype Volume = Volume(volumeId: string, size: int, status: string, createTime: Timestamp)
  datatype Snapshot = Snapshot(startTime: Timestamp)
  datatype Tag = Tag(key: string, value: string)
  /** `monitoringState` is `Monitoring.State`; `None` when either is missing. */
  datatype Instance = Instance(instanceId: string, state: string, monitoringState: Option<string>, tags: seq<Tag>)
  datatype Reservation = Reservation(instances: seq<Instance>)

  // CloudTrail, CloudFormation, RDS, Secrets Manager, Compute Optimizer
  datatype Trail = Trail(name: string, trailArn: string, isMultiRegionTrail: bool)
  datatype StackSummary = StackSummary(stackName: string, stackStatus: string)
  datatype DriftDetection = DriftDetection(
    detectionStatus: string, stackDriftStatus: Option<string>, detectionStatusReason: Option<string>)
  const DetectionComplete: string := "DETECTION_COMPLETE"
  const DetectionFailed: string := "DETECTION_FAILED"
  datatype DbInstance = DbInstance(dbInstanceIdentifier: string, engine: string, multiAZ: bool)
  datatype Secret = Secret(name: string, rotationEnabled: Option<bool>)
  datatype RecommendationOption = RecommendationOption(instanceType: string)
  datatype InstanceRecommendation = InstanceRecommendation(
    instanceArn: string, currentInstanceType: string, finding: Option<string>,
    recommendationOptions: seq<RecommendationOption>)

  /** The user names, in listing order. */
  function UserNames(users: seq<User>): (r: seq<string>)
    ensures |r| == |users| && forall i :: 0 <= i < |users| ==> r[i] == users[i].userName
  {
    if users == [] then [] else [users[0].userName] + UserNames(users[1..])
  }

  /** The CIDR block that opens a rule to every address. */
  const AnyAddress: string := "0.0.0.0/0"

  predicate OpenToWorld(r: IpRange) {
    r.cidrIp == Some(AnyAddress)
  }

  // ---- S3 public access

  /** A grant to a group whose URI mentions "AllUsers". */
  predicate GrantsAllUsers(g: Grant) {
    g.granteeUri.Some? && Contains(g.granteeUri.value, "AllUsers")
  }

  /** The record both public-bucket checks emit. */
  datatype PublicBucket = PublicBucket(bucket: string, reason: string) {
    function ToJson(): Json {
      JObj([("Bucket", JStr(bucket)), ("Reason", JStr(reason))])
    }
  }

  // ---- IAM access keys

  /** The record both access-key checks emit for a key past its age limit. */
  datatype AgedKey = AgedKey(userName: string, accessKeyId: string, createDate: string) {
    function ToJson(): Json {
      JObj([("UserName", JStr(userName)), ("AccessKeyId", JStr(accessKeyId)), ("CreateDate", JStr(createDate))])
    }
  }

  /** An active key created strictly before the age limit. */
  predicate IsAged(k: AccessKey, ageLimit: int) {
    k.status == "Active" && k.createDate.epoch < ageLimit
  }

  /** The aged keys of one user, in the order the keys were listed. */
  function AgedKeysOf(userName: string, keys: seq<AccessKey>, ageLimit: int): seq<AgedKey> {
    if keys == [] then []
    else
      (if IsAged(keys[0], ageLimit) then [AgedKey(userName, keys[0].accessKeyId, keys[0].createDate.iso)] else [])
      + AgedKeysOf(userName, keys[1..], ageLimit)
  }

  lemma {:induction false} AgedKeysOfMembers(userName: string, keys: seq<AccessKey>, ageLimit: int)
    ensures forall a :: a in AgedKeysOf(userName, keys, ageLimit) <==>
      exists k :: k in keys && IsAged(k, ageLimit) && a == AgedKey(userName, k.accessKeyId, k.createDate.iso)
  {
    if keys != [] {
      AgedKeysOfMembers(userName, keys[1..], ageLimit);
      assert keys == [keys[0]] + keys[1..];
    }
  }

  // ---- RDS

  /** The record both Multi-AZ reports emit for a DB instance. */
  datatype MultiAzStatus = MultiAzStatus(dbInstanceIdentifier: string, engine: string, isMultiAZ: bool) {
    function ToJson(): Json {
      JObj([("DBInstanceIdentifier", JStr(dbInstanceIdentifier)), ("Engine", JStr(engine)),
            ("IsMultiAZ", JBool(isMultiAZ))])
    }
  }

  /** A DB instance's Multi-AZ record, its fields copied unchanged. */
  function MultiAzOf(db: DbInstance): MultiAzStatus {
    MultiAzStatus(db.dbInstanceIdentifier, db.engine, db.multiAZ)
  }

  // ---- VPC flow logs

  /** The resource ids that some flow log is attached to. */
  function FlowLoggedIds(logs: seq<FlowLog>): set<string> {
    set l | l in logs :: l.resourceId
  }

  /** The ids of the VPCs that no flow log covers, in VPC order. */
  function VpcsWithoutFlowLogs(vpcs: seq<Vpc>, logged: set<string>): seq<string> {
    if vpcs == [] then []
    else (if vpcs[0].vpcId !in logged then [vpcs[0].vpcId] else []) + VpcsWithoutFlowLogs(vpcs[1..], logged)
  }

  function VpcIds(vpcs: seq<Vpc>): (r: seq<string>)
    ensures |r| == |vpcs| && forall i :: 0 <= i < |vpcs| ==> r[i] == vpcs[i].vpcId
  {
    if vpcs == [] then [] else [vpcs[0].vpcId] + VpcIds(vpcs[1..])
  }

  /** A VPC id is reported iff some VPC has it and no flow log covers it, and
      the report keeps the VPCs' order. */
  lemma {:induction false} VpcsWithoutFlowLogsMeaning(vpcs: seq<Vpc>, logged: set<string>)
    ensures forall id :: id in VpcsWithoutFlowLogs(vpcs, logged) <==> id in VpcIds(vpcs) && id !in logged
    ensures IsSubsequence(VpcsWithoutFlowLogs(vpcs, logged), VpcIds(vpcs))
  {
    if vpcs != [] {
      VpcsWithoutFlowLogsMeaning(vpcs[1..], logged);
      var rest := VpcsWithoutFlowLogs(vpcs[1..], logged);
      assert VpcIds(vpcs) == [vpcs[0].vpcId] + VpcIds(vpcs[1..]);
      if vpcs[0].vpcId in logged {
        assert VpcsWithoutFlowLogs(vpcs, logged) == rest;
        SubsequenceOfCons(rest, VpcIds(vpcs[1..]), vpcs[0].vpcId);
      } else {
        assert ([vpcs[0].vpcId] + rest)[1..] == rest;
      }
    }
  }

  // ---- EC2 tags

  /** The value of the first tag whose key is "Name", if there is one:
      `next((t['Value'] for t in tags if t['Key'] == 'Name'), default)`. */
  function FirstNameTag(tags: seq<Tag>): (r: Option<string>)
    ensures r.None? <==> forall t :: t in tags ==> t.key != "Name"
    ensures r.Some? ==>
              exists i :: 0 <= i < |tags| && tags[i] == Tag("Name", r.value) &&
                          forall j :: 0 <= j < i ==> tags[j].key != "Name"
  {
    if tags == [] then None
    else if tags[0].key == "Name" then
      assert tags[0] == Tag("Name", tags[0].value);
      Some(tags[0].value)
    else
      var r := FirstNameTag(tags[1..]);
      assert tags == [tags[0]] + tags[1..];
      if r.Some? then
        ghost var i :| 0 <= i < |tags[1..]| && tags[1..][i] == Tag("Name", r.value) &&
          forall j :: 0 <= j < i ==> tags[1..][j].key != "Name";
        assert tags[i + 1] == Tag("Name", r.value);
        assert forall j :: 0 <= j < i + 1 ==> tags[j].key != "Name" by {
          forall j | 0 <= j < i + 1 ensures tags[j].key != "Name" {
            if j > 0 { assert tags[j] == tags[1..][j - 1]; }
          }
        }
        r
      else r
  }

  /** The "Name" column of the monitoring checks. */
  const NoName: string := "N/A"

  /** The record both monitoring checks emit for an instance. */
  datatype UnmonitoredInstance = UnmonitoredInstance(instanceId: string, name: string) {
    function ToJson(): Json {
      JObj([("InstanceId", JStr(instanceId)), ("Name", JStr(name))])
    }
  }

  /** An instance under its first Name tag, or "N/A" without one. */
  function Unmonitored(x: Instance): UnmonitoredInstance {
    UnmonitoredInstance(x.instanceId, FirstNameTag(x.tags).GetOr(NoName))
  }

  // ---- Server-side filters of the describe/list calls

  /** `describe_volumes(Filters=[{'Name': 'status', 'Values': [status]}])`. */
  function VolumesWithStatus(volumes: seq<Volume>, status: string): (r: seq<Volume>)
    ensures forall v :: v in r <==> v in volumes && v.status == status
    ensures |r| <= |volumes|
  {
    if volumes == [] then []
    else
      assert volumes == [volumes[0]] + volumes[1..];
      (if volumes[0].status == status then [volumes[0]] else []) + VolumesWithStatus(volumes[1..], status)
  }

  /** `describe_instances(Filters=[{'Name': 'instance-state-name', 'Values': [state]}])`:
      every reservation keeps only its instances in that state. */
  function ReservationsInState(reservations: seq<Reservation>, state: string): (r: seq<Reservation>)
    ensures |r| == |reservations|
    ensures forall i :: 0 <= i < |r| ==>
      forall x :: x in r[i].instances <==> x in reservations[i].instances && x.state == state
  {
    if reservations == [] then []
    else
      [Reservation(InstancesInState(reservations[0].instances, state))]
      + ReservationsInState(reservations[1..], state)
  }

  function InstancesInState(instances: seq<Instance>, state: string): (r: seq<Instance>)
    ensures forall x :: x in r <==> x in instances && x.state == state
  {
    if instances == [] then []
    else
      assert instances == [instances[0]] + instances[1..];
      (if instances[0].state == state then [instances[0]] else []) + InstancesInState(instances[1..], state)
  }

  /** `list_stacks(StackStatusFilter=statuses)`. */
  function StacksWithStatus(stacks: seq<StackSummary>, statuses: set<string>): (r: seq<StackSummary>)
    ensures forall s :: s in r <==> s in stacks && s.stackStatus in statuses
  {
    if stacks == [] then []
    else
      assert stacks == [stacks[0]] + stacks[1..];
      (if stacks[0].stackStatus in statuses then [stacks[0]] else []) + StacksWithStatus(stacks[1..], statuses)
  }
}
