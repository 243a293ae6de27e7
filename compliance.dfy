/** The compliance checks of backend/core/compliance.py. Each takes the
    resources a caller already listed, plus the answers of the follow-up AWS
    calls it makes, as functions from the request argument to the answer.
    Only `ClientError` is handled there; every other failure propagates to
    the caller (`Raised`). */
module Compliance {
  import opened Aws
  import opened Resources

  // ---------------------------------------------------------------------
  // check_mfa: the users whose list_mfa_devices answer is empty.

  function MfaStep(u: User, devices: string -> ApiResult<seq<MfaDevice>>): Step<string> {
    match devices(u.userName)
    case Ok(ds) => Emit(if ds == [] then [u.userName] else [])
    case Fail(ClientError(_, _)) => Emit([])
    case Fail(OtherError(t)) => Stop(OtherError(t))
  }

  /** Reference definition of check_mfa: the loop over `users`. */
  function UsersWithoutMfa(users: seq<User>, devices: string -> ApiResult<seq<MfaDevice>>): Run<seq<string>> {
    if users == [] then Returned([])
    else Then(MfaStep(users[0], devices), UsersWithoutMfa(users[1..], devices))
  }

  method CheckMfa(users: seq<User>, devices: string -> ApiResult<seq<MfaDevice>>) returns (r: Run<seq<string>>)
    ensures r == UsersWithoutMfa(users, devices)
  {
    var nonCompliant: seq<string> := [];
    var i := 0;
    assert users[0..] == users;
    PrependNothing(UsersWithoutMfa(users, devices));
    while i < |users|
      invariant 0 <= i <= |users|
      invariant UsersWithoutMfa(users, devices) == Prepend(nonCompliant, UsersWithoutMfa(users[i..], devices))
    {
      assert users[i..][1..] == users[i + 1..];
      assert UsersWithoutMfa(users[i..], devices) == Then(MfaStep(users[i], devices), UsersWithoutMfa(users[i + 1..], devices));
      if MfaStep(users[i], devices).Emit? {
        PrependTwice(nonCompliant, MfaStep(users[i], devices).rows, UsersWithoutMfa(users[i + 1..], devices));
      }
      var name := users[i].userName;
      match devices(name) {
        case Ok(ds) =>
          if ds == [] {
            nonCompliant := nonCompliant + [name];
          }
        case Fail(e) =>
          if e.OtherError? {
            return Raised(e);
          }
      }
      i := i + 1;
    }
    assert nonCompliant + [] == nonCompliant;
    return Returned(nonCompliant);
  }

  /** check_mfa raises iff some lookup fails with something other than a
      ClientError; otherwise it lists exactly the users with no MFA device
      (a ClientError skips only that user), in the order of `users`. */
  lemma {:induction false} UsersWithoutMfaMeaning(users: seq<User>, devices: string -> ApiResult<seq<MfaDevice>>)
    ensures UsersWithoutMfa(users, devices).Raised? <==> exists u :: u in users && Escapes(devices(u.userName))
    ensures UsersWithoutMfa(users, devices).Returned? ==>
              forall n :: n in UsersWithoutMfa(users, devices).value <==>
                            exists u :: u in users && u.userName == n && devices(n) == Ok([])
    ensures UsersWithoutMfa(users, devices).Returned? ==>
              IsSubsequence(UsersWithoutMfa(users, devices).value, UserNames(users))
  {
    if users != [] {
      UsersWithoutMfaMeaning(users[1..], devices);
      assert users == [users[0]] + users[1..];
      assert UserNames(users) == [users[0].userName] + UserNames(users[1..]);
      var rest := UsersWithoutMfa(users[1..], devices);
      if rest.Returned? && MfaStep(users[0], devices).Emit? {
        if MfaStep(users[0], devices).rows == [] {
          assert UsersWithoutMfa(users, devices).value == rest.value;
          SubsequenceOfCons(rest.value, UserNames(users[1..]), users[0].userName);
        } else {
          assert ([users[0].userName] + rest.value)[1..] == rest.value;
        }
      }
    }
  }

  // ---------------------------------------------------------------------
  // check_public_s3_buckets: buckets public through their ACL or policy.

  const ViaAcl: string := "Public via ACL"
  const ViaPolicy: string := "Public via Bucket Policy"

  /** The grant loop: one ACL entry per AllUsers grant (its `continue` moves
      on to the next grant, so a bucket can be entered more than once). */
  function AclEntries(name: string, grants: seq<Grant>): seq<PublicBucket> {
    if grants == [] then []
    else (if GrantsAllUsers(grants[0]) then [PublicBucket(name, ViaAcl)] else []) + AclEntries(name, grants[1..])
  }

  lemma {:induction false} AclEntriesMembers(name: string, grants: seq<Grant>)
    ensures forall e :: e in AclEntries(name, grants) <==>
                          e == PublicBucket(name, ViaAcl) && exists g :: g in grants && GrantsAllUsers(g)
  {
    if grants != [] {
      AclEntriesMembers(name, grants[1..]);
      assert grants == [grants[0]] + grants[1..];
    }
  }

  /** One bucket: the ACL lookup, then the policy-status lookup. A ClientError
      from the ACL lookup skips the bucket; one from the policy lookup (the
      NoSuchBucketPolicy code, or any other code, which is re-raised and
      caught by the outer handler) keeps the ACL entries already made. */
  function BucketStep(b: Bucket, acl: string -> ApiResult<seq<Grant>>,
                      policy: string -> ApiResult<PolicyStatus>): Step<PublicBucket> {
    match acl(b.name)
    case Fail(ClientError(_, _)) => Emit([])
    case Fail(OtherError(t)) => Stop(OtherError(t))
    case Ok(grants) =>
      var fromAcl := AclEntries(b.name, grants);
      match policy(b.name)
      case Ok(ps) => Emit(fromAcl + if ps.isPublic then [PublicBucket(b.name, ViaPolicy)] else [])
      case Fail(ClientError(_, _)) => Emit(fromAcl)
      case Fail(OtherError(t)) => Stop(OtherError(t))
  }

  /** Reference definition of the bucket loop, before duplicates are dropped. */
  function PublicBucketEntries(buckets: seq<Bucket>, acl: string -> ApiResult<seq<Grant>>,
                               policy: string -> ApiResult<PolicyStatus>): Run<seq<PublicBucket>> {
    if buckets == [] then Returned([])
    else Then(BucketStep(buckets[0], acl, policy), PublicBucketEntries(buckets[1..], acl, policy))
  }

  /** The grant loop of one bucket. */
  method AllUsersGrantEntries(name: string, grants: seq<Grant>) returns (entries: seq<PublicBucket>)
    ensures entries == AclEntries(name, grants)
  {
    entries := [];
    var j := 0;
    assert grants[0..] == grants;
    while j < |grants|
      invariant 0 <= j <= |grants|
      invariant entries + AclEntries(name, grants[j..]) == AclEntries(name, grants)
    {
      assert grants[j..][1..] == grants[j + 1..];
      var g := grants[j];
      if g.granteeUri.Some? && Contains(g.granteeUri.value, "AllUsers") {
        entries := entries + [PublicBucket(name, ViaAcl)];
      }
      j := j + 1;
    }
    assert grants[j..] == [];
    assert entries + [] == entries;
  }

  /** The duplicates are dropped through a set, so the order of the result is
      not specified: the contract speaks only of its elements. */
  method CheckPublicS3Buckets(buckets: seq<Bucket>, acl: string -> ApiResult<seq<Grant>>,
                              policy: string -> ApiResult<PolicyStatus>) returns (r: Run<seq<PublicBucket>>)
    ensures PublicBucketEntries(buckets, acl, policy).Raised? ==> r == PublicBucketEntries(buckets, acl, policy)
    ensures PublicBucketEntries(buckets, acl, policy).Returned? ==>
              r.Returned? && NoDuplicates(r.value) &&
              forall e :: e in r.value <==> e in PublicBucketEntries(buckets, acl, policy).value
  {
    var publicBuckets: seq<PublicBucket> := [];
    var i := 0;
    assert buckets[0..] == buckets;
    PrependNothing(PublicBucketEntries(buckets, acl, policy));
    while i < |buckets|
      invariant 0 <= i <= |buckets|
      invariant PublicBucketEntries(buckets, acl, policy) ==
                Prepend(publicBuckets, PublicBucketEntries(buckets[i..], acl, policy))
    {
      assert buckets[i..][1..] == buckets[i + 1..];
      assert PublicBucketEntries(buckets[i..], acl, policy) == Then(BucketStep(buckets[i], acl, policy), PublicBucketEntries(buckets[i + 1..], acl, policy));
      if BucketStep(buckets[i], acl, policy).Emit? {
        PrependTwice(publicBuckets, BucketStep(buckets[i], acl, policy).rows, PublicBucketEntries(buckets[i + 1..], acl, policy));
      }
      var name := buckets[i].name;
      ghost var before := publicBuckets;
      match acl(name) {
        case Fail(e) =>
          if e.OtherError? {
            return Raised(e);
          }
        case Ok(grants) =>
          var fromAcl := AllUsersGrantEntries(name, grants);
          publicBuckets := publicBuckets + fromAcl;
          match policy(name) {
            case Ok(ps) =>
              if ps.isPublic {
                publicBuckets := publicBuckets + [PublicBucket(name, ViaPolicy)];
              } else {
                assert fromAcl + [] == fromAcl;
              }
            case Fail(e) =>
              if e.OtherError? {
                return Raised(e);
              }
          }
          assert publicBuckets == before + BucketStep(buckets[i], acl, policy).rows;
      }
      i := i + 1;
    }
    assert publicBuckets + [] == publicBuckets;
    var distinct := Distinct(publicBuckets);
    return Returned(distinct);
  }

  /** Whether a bucket makes check_public_s3_buckets raise. */
  predicate BucketEscapes(b: Bucket, acl: string -> ApiResult<seq<Grant>>, policy: string -> ApiResult<PolicyStatus>) {
    Escapes(acl(b.name)) || (acl(b.name).Ok? && Escapes(policy(b.name)))
  }

  /** Whether an entry is one the check owes bucket `b`. */
  predicate PublicEntryOf(e: PublicBucket, b: Bucket, acl: string -> ApiResult<seq<Grant>>,
                          policy: string -> ApiResult<PolicyStatus>) {
    e.bucket == b.name && acl(b.name).Ok? &&
    ((e.reason == ViaAcl && exists g :: g in acl(b.name).value && GrantsAllUsers(g)) ||
     (e.reason == ViaPolicy && policy(b.name) == Ok(PolicyStatus(true))))
  }

  lemma BucketStepMeaning(b: Bucket, acl: string -> ApiResult<seq<Grant>>, policy: string -> ApiResult<PolicyStatus>)
    ensures BucketStep(b, acl, policy).Stop? <==> BucketEscapes(b, acl, policy)
    ensures BucketStep(b, acl, policy).Emit? ==>
              forall e :: e in BucketStep(b, acl, policy).rows <==> PublicEntryOf(e, b, acl, policy)
  {
    if acl(b.name).Ok? {
      AclEntriesMembers(b.name, acl(b.name).value);
    }
  }

  /** An entry names a bucket whose ACL could be read, with reason "Public
      via ACL" iff some grant names AllUsers, or with reason "Public via
      Bucket Policy" iff its policy status is public; nothing else is an
      entry. The check raises iff some bucket's lookups fail with something
      other than a ClientError. */
  lemma {:induction false} PublicBucketEntriesMeaning(buckets: seq<Bucket>, acl: string -> ApiResult<seq<Grant>>,
                                                      policy: string -> ApiResult<PolicyStatus>)
    ensures PublicBucketEntries(buckets, acl, policy).Raised? <==> exists b :: b in buckets && BucketEscapes(b, acl, policy)
    ensures PublicBucketEntries(buckets, acl, policy).Returned? ==>
              forall e :: e in PublicBucketEntries(buckets, acl, policy).value <==>
                            exists b :: b in buckets && PublicEntryOf(e, b, acl, policy)
  {
    if buckets != [] {
      PublicBucketEntriesMeaning(buckets[1..], acl, policy);
      assert buckets == [buckets[0]] + buckets[1..];
      BucketStepMeaning(buckets[0], acl, policy);
    }
  }

  // ---------------------------------------------------------------------
  // check_iam_key_age: active access keys older than max_age_days.

  const DefaultMaxKeyAgeDays: int := 90

  function KeyAgeStep(u: User, keys: string -> ApiResult<seq<AccessKey>>, ageLimit: int): Step<AgedKey> {
    match keys(u.userName)
    case Ok(ks) => Emit(AgedKeysOf(u.userName, ks, ageLimit))
    case Fail(ClientError(_, _)) => Emit([])
    case Fail(OtherError(t)) => Stop(OtherError(t))
  }

  /** Reference definition of check_iam_key_age's loop for a given age limit. */
  function AgedKeys(users: seq<User>, keys: string -> ApiResult<seq<AccessKey>>, ageLimit: int): Run<seq<AgedKey>> {
    if users == [] then Returned([])
    else Then(KeyAgeStep(users[0], keys, ageLimit), AgedKeys(users[1..], keys, ageLimit))
  }

  /** The key loop of one user. */
  method AgedKeysOfUser(name: string, ks: seq<AccessKey>, ageLimit: int) returns (aged: seq<AgedKey>)
    ensures aged == AgedKeysOf(name, ks, ageLimit)
  {
    aged := [];
    var j := 0;
    assert ks[0..] == ks;
    while j < |ks|
      invariant 0 <= j <= |ks|
      invariant aged + AgedKeysOf(name, ks[j..], ageLimit) == AgedKeysOf(name, ks, ageLimit)
    {
      assert ks[j..][1..] == ks[j + 1..];
      var k := ks[j];
      if k.status == "Active" && k.createDate.epoch < ageLimit {
        aged := aged + [AgedKey(name, k.accessKeyId, k.createDate.iso)];
      }
      j := j + 1;
    }
    assert ks[j..] == [];
    assert aged + [] == aged;
  }

  method CheckIamKeyAge(users: seq<User>, keys: string -> ApiResult<seq<AccessKey>>, now: int, maxAgeDays: int)
    returns (r: Run<seq<AgedKey>>)
    ensures r == AgedKeys(users, keys, DaysBefore(now, maxAgeDays))
  {
    var agedKeys: seq<AgedKey> := [];
    var ageLimit := now - maxAgeDays * SecondsPerDay;
    var i := 0;
    assert users[0..] == users;
    PrependNothing(AgedKeys(users, keys, ageLimit));
    while i < |users|
      invariant 0 <= i <= |users|
      invariant AgedKeys(users, keys, ageLimit) == Prepend(agedKeys, AgedKeys(users[i..], keys, ageLimit))
    {
      assert users[i..][1..] == users[i + 1..];
      assert AgedKeys(users[i..], keys, ageLimit) == Then(KeyAgeStep(users[i], keys, ageLimit), AgedKeys(users[i + 1..], keys, ageLimit));
      if KeyAgeStep(users[i], keys, ageLimit).Emit? {
        PrependTwice(agedKeys, KeyAgeStep(users[i], keys, ageLimit).rows, AgedKeys(users[i + 1..], keys, ageLimit));
      }
      var name := users[i].userName;
      match keys(name) {
        case Ok(ks) =>
          var aged := AgedKeysOfUser(name, ks, ageLimit);
          agedKeys := agedKeys + aged;
        case Fail(e) =>
          if e.OtherError? {
            return Raised(e);
          }
      }
      i := i + 1;
    }
    assert agedKeys + [] == agedKeys;
    return Returned(agedKeys);
  }

  /** A key is reported iff it is active and older than the limit and its
      user's keys could be listed; a ClientError for one user skips only that
      user. The check raises iff some listing fails otherwise. */
  lemma {:induction false} AgedKeysMeaning(users: seq<User>, keys: string -> ApiResult<seq<AccessKey>>, ageLimit: int)
    ensures AgedKeys(users, keys, ageLimit).Raised? <==> exists u :: u in users && Escapes(keys(u.userName))
    ensures AgedKeys(users, keys, ageLimit).Returned? ==>
              forall a :: a in AgedKeys(users, keys, ageLimit).value <==>
                            exists u, k :: u in users && keys(u.userName).Ok? && k in keys(u.userName).value &&
                                           IsAged(k, ageLimit) && a == AgedKey(u.userName, k.accessKeyId, k.createDate.iso)
  {
    if users != [] {
      AgedKeysMeaning(users[1..], keys, ageLimit);
      assert users == [users[0]] + users[1..];
      if keys(users[0].userName).Ok? {
        AgedKeysOfMembers(users[0].userName, keys(users[0].userName).value, ageLimit);
      }
    }
  }

  // ---------------------------------------------------------------------
  // check_unrestricted_security_groups: rules open to 0.0.0.0/0.

  datatype OpenRule = OpenRule(groupId: string, groupName: string, portRange: string)

  /** `permission.get('FromPort', 'All')` rendered into the f-string. */
  function PortText(p: Option<int>): string {
    match p
    case Some(n) => IntText(n)
    case None => "All"
  }

  /** The "From-To" text of a permission. */
  function PortRange(p: IpPermission): string {
    PortText(p.fromPort) + "-" + PortText(p.toPort)
  }

  function RangeRules(sg: SecurityGroup, p: IpPermission, ranges: seq<IpRange>): seq<OpenRule> {
    if ranges == [] then []
    else (if OpenToWorld(ranges[0]) then [OpenRule(sg.groupId, sg.groupName, PortRange(p))] else [])
         + RangeRules(sg, p, ranges[1..])
  }

  function PermissionRules(sg: SecurityGroup, perms: seq<IpPermission>): seq<OpenRule> {
    if perms == [] then [] else RangeRules(sg, perms[0], perms[0].ipRanges) + PermissionRules(sg, perms[1..])
  }

  /** Reference definition: one rule per (group, permission, range) whose
      range is 0.0.0.0/0, in input order. */
  function UnrestrictedRules(groups: seq<SecurityGroup>): seq<OpenRule> {
    if groups == [] then [] else PermissionRules(groups[0], groups[0].ipPermissions) + UnrestrictedRules(groups[1..])
  }

  /** The innermost loop: the ranges of one permission. */
  method RangeRulesOf(sg: SecurityGroup, p: IpPermission) returns (rules: seq<OpenRule>)
    ensures rules == RangeRules(sg, p, p.ipRanges)
  {
    rules := [];
    var k := 0;
    assert p.ipRanges[0..] == p.ipRanges;
    while k < |p.ipRanges|
      invariant 0 <= k <= |p.ipRanges|
      invariant rules + RangeRules(sg, p, p.ipRanges[k..]) == RangeRules(sg, p, p.ipRanges)
    {
      assert p.ipRanges[k..][1..] == p.ipRanges[k + 1..];
      if p.ipRanges[k].cidrIp == Some("0.0.0.0/0") {
        var portRange := PortText(p.fromPort) + "-" + PortText(p.toPort);
        rules := rules + [OpenRule(sg.groupId, sg.groupName, portRange)];
      }
      k := k + 1;
    }
    assert p.ipRanges[k..] == [];
    assert rules + [] == rules;
  }

  /** The middle loop: the permissions of one group. */
  method PermissionRulesOf(sg: SecurityGroup) returns (rules: seq<OpenRule>)
    ensures rules == PermissionRules(sg, sg.ipPermissions)
  {
    rules := [];
    var perms := sg.ipPermissions;
    var j := 0;
    assert perms[0..] == perms;
    while j < |perms|
      invariant 0 <= j <= |perms|
      invariant rules + PermissionRules(sg, perms[j..]) == PermissionRules(sg, perms)
    {
      assert perms[j..][1..] == perms[j + 1..];
      var fromRanges := RangeRulesOf(sg, perms[j]);
      rules := rules + fromRanges;
      j := j + 1;
    }
    assert perms[j..] == [];
    assert rules + [] == rules;
  }

  method CheckUnrestrictedSecurityGroups(groups: seq<SecurityGroup>) returns (rules: seq<OpenRule>)
    ensures rules == UnrestrictedRules(groups)
  {
    rules := [];
    var i := 0;
    assert groups[0..] == groups;
    while i < |groups|
      invariant 0 <= i <= |groups|
      invariant rules + UnrestrictedRules(groups[i..]) == UnrestrictedRules(groups)
    {
      assert groups[i..][1..] == groups[i + 1..];
      var fromGroup := PermissionRulesOf(groups[i]);
      rules := rules + fromGroup;
      i := i + 1;
    }
    assert groups[i..] == [];
    assert rules + [] == rules;
  }

  /** A rule is reported iff some group has a permission with a 0.0.0.0/0
      range, and it carries that group's id and name and that permission's
      port range. */
  lemma {:induction false} UnrestrictedRulesMembers(groups: seq<SecurityGroup>)
    ensures forall o :: o in UnrestrictedRules(groups) <==>
                          exists g, p, x :: g in groups && p in g.ipPermissions && x in p.ipRanges && OpenToWorld(x) &&
                                            o == OpenRule(g.groupId, g.groupName, PortRange(p))
  {
    if groups != [] {
      UnrestrictedRulesMembers(groups[1..]);
      assert groups == [groups[0]] + groups[1..];
      PermissionRulesMembers(groups[0], groups[0].ipPermissions);
    }
  }

  lemma {:induction false} PermissionRulesMembers(sg: SecurityGroup, perms: seq<IpPermission>)
    ensures forall o :: o in PermissionRules(sg, perms) <==>
                          exists p, x :: p in perms && x in p.ipRanges && OpenToWorld(x) &&
                                         o == OpenRule(sg.groupId, sg.groupName, PortRange(p))
  {
    if perms != [] {
      PermissionRulesMembers(sg, perms[1..]);
      assert perms == [perms[0]] + perms[1..];
      RangeRulesMembers(sg, perms[0], perms[0].ipRanges);
    }
  }

  lemma {:induction false} RangeRulesMembers(sg: SecurityGroup, p: IpPermission, ranges: seq<IpRange>)
    ensures forall o :: o in RangeRules(sg, p, ranges) <==>
                          (exists x :: x in ranges && OpenToWorld(x)) && o == OpenRule(sg.groupId, sg.groupName, PortRange(p))
  {
    if ranges != [] {
      RangeRulesMembers(sg, p, ranges[1..]);
      assert ranges == [ranges[0]] + ranges[1..];
    }
  }

  /** A missing bound is written "All": a permission without ports reads "All-All". */
  lemma PortRangeWithoutPorts(p: IpPermission)
    requires p.fromPort.None? && p.toPort.None?
    ensures PortRange(p) == "All-All"
  {
  }

  // ---------------------------------------------------------------------
  // check_vpc_flow_logs: the VPCs no flow log is attached to.

  method CheckVpcFlowLogs(vpcs: seq<Vpc>, flowLogs: ApiResult<seq<FlowLog>>) returns (r: Run<seq<string>>)
    ensures flowLogs.Ok? ==> r == Returned(VpcsWithoutFlowLogs(vpcs, FlowLoggedIds(flowLogs.value)))
    ensures flowLogs.Fail? && flowLogs.error.ClientError? ==> r == Returned([])
    ensures Escapes(flowLogs) ==> r == Raised(flowLogs.error)
  {
    var withoutLogs: seq<string> := [];
    match flowLogs {
      case Fail(e) =>
        if e.OtherError? {
          return Raised(e);
        }
      case Ok(logs) =>
        var logged := set l | l in logs :: l.resourceId;
        var i := 0;
        assert vpcs[0..] == vpcs;
        while i < |vpcs|
          invariant 0 <= i <= |vpcs|
          invariant withoutLogs + VpcsWithoutFlowLogs(vpcs[i..], logged) == VpcsWithoutFlowLogs(vpcs, logged)
        {
          assert vpcs[i..][1..] == vpcs[i + 1..];
          if vpcs[i].vpcId !in logged {
            withoutLogs := withoutLogs + [vpcs[i].vpcId];
          }
          i := i + 1;
        }
        assert vpcs[i..] == [];
        assert withoutLogs + [] == withoutLogs;
    }
    return Returned(withoutLogs);
  }

  // ---------------------------------------------------------------------
  // check_cloudtrail_status: a single comprehension over trail records.

  /** A trail record as this check reads it: its name ("" when missing, which
      the check treats alike) and its lower-case "is_logging" entry. */
  datatype LoggedTrail = LoggedTrail(name: string, isLoggingEntry: Option<bool>)

  datatype TrailLogging = TrailLogging(name: string, isLogging: bool)

  /** The trails the comprehension's `if t.get('Name')` keeps, in order. */
  function NamedTrails(trails: seq<LoggedTrail>): (r: seq<LoggedTrail>)
    ensures forall t :: t in r <==> t in trails && t.name != ""
    ensures IsSubsequence(r, trails)
  {
    if trails == [] then []
    else
      var rest := NamedTrails(trails[1..]);
      assert trails == [trails[0]] + trails[1..];
      if trails[0].name != "" then
        assert ([trails[0]] + rest)[1..] == rest;
        [trails[0]] + rest
      else
        SubsequenceOfCons(rest, trails[1..], trails[0]);
        rest
  }

  /** One record per named trail, in order; IsLogging defaults to False. */
  function CheckCloudTrailStatus(trails: seq<LoggedTrail>): (r: seq<TrailLogging>)
    ensures |r| == |NamedTrails(trails)|
    ensures forall i :: 0 <= i < |r| ==>
              r[i] == TrailLogging(NamedTrails(trails)[i].name, NamedTrails(trails)[i].isLoggingEntry.GetOr(false))
  {
    if trails == [] then []
    else
      (if trails[0].name != "" then [TrailLogging(trails[0].name, trails[0].isLoggingEntry.GetOr(false))] else [])
      + CheckCloudTrailStatus(trails[1..])
  }

  // ---------------------------------------------------------------------
  // check_s3_lifecycle: named buckets without a lifecycle configuration.

  const NoSuchLifecycleConfiguration: string := "NoSuchLifecycleConfiguration"

  function LifecycleStep(b: Bucket, lifecycle: string -> ApiResult<LifecycleConfiguration>): Step<string> {
    if b.name == "" then Emit([])
    else
      match lifecycle(b.name)
      case Ok(_) => Emit([])
      case Fail(ClientError(code, _)) => Emit(if code == NoSuchLifecycleConfiguration then [b.name] else [])
      case Fail(OtherError(t)) => Stop(OtherError(t))
  }

  /** Reference definition of check_s3_lifecycle's loop. */
  function BucketsWithoutLifecycle(buckets: seq<Bucket>, lifecycle: string -> ApiResult<LifecycleConfiguration>)
    : Run<seq<string>>
  {
    if buckets == [] then Returned([])
    else Then(LifecycleStep(buckets[0], lifecycle), BucketsWithoutLifecycle(buckets[1..], lifecycle))
  }

  method CheckS3Lifecycle(buckets: seq<Bucket>, lifecycle: string -> ApiResult<LifecycleConfiguration>)
    returns (r: Run<seq<string>>)
    ensures r == BucketsWithoutLifecycle(buckets, lifecycle)
  {
    var noLifecycle: seq<string> := [];
    var i := 0;
    assert buckets[0..] == buckets;
    PrependNothing(BucketsWithoutLifecycle(buckets, lifecycle));
    while i < |buckets|
      invariant 0 <= i <= |buckets|
      invariant BucketsWithoutLifecycle(buckets, lifecycle) ==
                Prepend(noLifecycle, BucketsWithoutLifecycle(buckets[i..], lifecycle))
    {
      assert buckets[i..][1..] == buckets[i + 1..];
      assert BucketsWithoutLifecycle(buckets[i..], lifecycle) == Then(LifecycleStep(buckets[i], lifecycle), BucketsWithoutLifecycle(buckets[i + 1..], lifecycle));
      if LifecycleStep(buckets[i], lifecycle).Emit? {
        PrependTwice(noLifecycle, LifecycleStep(buckets[i], lifecycle).rows, BucketsWithoutLifecycle(buckets[i + 1..], lifecycle));
      }
      var name := buckets[i].name;
      if name != "" {
        match lifecycle(name) {
          case Ok(_) =>
          case Fail(e) =>
            if e.OtherError? {
              return Raised(e);
            } else if e.code == NoSuchLifecycleConfiguration {
              noLifecycle := noLifecycle + [name];
            }
        }
      }
      i := i + 1;
    }
    assert noLifecycle + [] == noLifecycle;
    return Returned(noLifecycle);
  }

  /** A bucket name is listed iff the bucket is named and its lifecycle
      lookup fails with the NoSuchLifecycleConfiguration code; nameless
      buckets and other ClientErrors add nothing. */
  lemma {:induction false} BucketsWithoutLifecycleMeaning(buckets: seq<Bucket>,
                                                          lifecycle: string -> ApiResult<LifecycleConfiguration>)
    ensures BucketsWithoutLifecycle(buckets, lifecycle).Raised? <==>
              exists b :: b in buckets && b.name != "" && Escapes(lifecycle(b.name))
    ensures BucketsWithoutLifecycle(buckets, lifecycle).Returned? ==>
              forall n :: n in BucketsWithoutLifecycle(buckets, lifecycle).value <==>
                            n != "" && Bucket(n) in buckets && lifecycle(n).Fail? &&
                            lifecycle(n).error.ClientError? && lifecycle(n).error.code == NoSuchLifecycleConfiguration
  {
    if buckets != [] {
      BucketsWithoutLifecycleMeaning(buckets[1..], lifecycle);
      assert buckets == [buckets[0]] + buckets[1..];
    }
  }

  // ---------------------------------------------------------------------
  // check_compute_optimizer: a branch on the enrollment status.

  /** `{'status': 'Active'}`, `{'error': 'Not enabled', 'status': s}` or
      `{'error': str(e)}`. */
  datatype EnrollmentReport = Enrolled | NotEnabled(status: string) | LookupFailed(text: string)

  /** `enrollment` is the answer of get_enrollment_status, holding its
      "Status" entry when there is one. */
  function CheckComputeOptimizer(enrollment: ApiResult<Option<string>>): (r: Run<EnrollmentReport>)
    ensures r == Returned(Enrolled) <==> enrollment == Ok(Some("Active"))
    ensures r.Returned? && r.value.NotEnabled? <==> enrollment.Ok? && enrollment.value != Some("Active")
    ensures r.Returned? && r.value.NotEnabled? ==> r.value.status == enrollment.value.GetOr("Unknown")
    ensures r.Returned? && r.value.LookupFailed? <==> enrollment.Fail? && enrollment.error.ClientError?
    ensures r.Returned? && r.value.LookupFailed? ==> r.value.text == enrollment.error.text
    ensures r.Raised? <==> Escapes(enrollment)
  {
    match enrollment
    case Ok(status) =>
      if status != Some("Active") then Returned(NotEnabled(status.GetOr("Unknown"))) else Returned(Enrolled)
    case Fail(ClientError(c, t)) => Returned(LookupFailed(t))
    case Fail(OtherError(t)) => Raised(OtherError(t))
  }

  // ---------------------------------------------------------------------
  // check_rds_multi_az: a single comprehension, one entry per instance.

  function CheckRdsMultiAz(instances: seq<DbInstance>): (r: seq<MultiAzStatus>)
    ensures |r| == |instances|
    ensures forall i :: 0 <= i < |r| ==>
                          r[i] == MultiAzStatus(instances[i].dbInstanceIdentifier, instances[i].engine, instances[i].multiAZ)
  {
    if instances == [] then []
    else
      [MultiAzStatus(instances[0].dbInstanceIdentifier, instances[0].engine, instances[0].multiAZ)]
      + CheckRdsMultiAz(instances[1..])
  }

  // ---------------------------------------------------------------------
  // check_ebs_backups: volumes without a snapshot newer than the limit.

  const DefaultBackupAgeDays: int := 7

  datatype VolumeBackupGap = VolumeBackupGap(volumeId: string, sizeGiB: int)

  /** `any(snap['StartTime'] > recent for snap in snapshots)`. */
  predicate HasRecentSnapshot(snapshots: seq<Snapshot>, recent: int) {
    exists s :: s in snapshots && s.startTime.epoch > recent
  }

  function BackupStep(v: Volume, account: string, snapshots: (string, string) -> ApiResult<seq<Snapshot>>,
                      recent: int): Step<VolumeBackupGap> {
    if v.volumeId == "" then Emit([])
    else
      match snapshots(account, v.volumeId)
      case Ok(snaps) => Emit(if HasRecentSnapshot(snaps, recent) then [] else [VolumeBackupGap(v.volumeId, v.size)])
      case Fail(ClientError(_, _)) => Emit([])
      case Fail(OtherError(t)) => Stop(OtherError(t))
  }

  function VolumesWithoutRecentBackup(volumes: seq<Volume>, account: string,
                                      snapshots: (string, string) -> ApiResult<seq<Snapshot>>, recent: int)
    : Run<seq<VolumeBackupGap>>
  {
    if volumes == [] then Returned([])
    else Then(BackupStep(volumes[0], account, snapshots, recent),
              VolumesWithoutRecentBackup(volumes[1..], account, snapshots, recent))
  }

  const AccountIdError: string := "Could not determine AWS Account ID to check snapshots."

  /** Reference definition of check_ebs_backups: the account lookup, then the
      volume loop. The check returns a list or an error dictionary, or raises. */
  function EbsBackups(volumes: seq<Volume>, account: ApiResult<string>,
                      snapshots: (string, string) -> ApiResult<seq<Snapshot>>, recent: int)
    : Run<Finding<VolumeBackupGap>>
  {
    match account
    case Fail(ClientError(_, _)) => Returned(ErrorDict(AccountIdError))
    case Fail(OtherError(t)) => Raised(OtherError(t))
    case Ok(id) =>
      match VolumesWithoutRecentBackup(volumes, id, snapshots, recent)
      case Returned(gaps) => Returned(Rows(gaps))
      case Raised(e) => Raised(e)
  }

  method CheckEbsBackups(volumes: seq<Volume>, account: ApiResult<string>,
                         snapshots: (string, string) -> ApiResult<seq<Snapshot>>, now: int, backupAgeDays: int)
    returns (r: Run<Finding<VolumeBackupGap>>)
    ensures r == EbsBackups(volumes, account, snapshots, DaysBefore(now, backupAgeDays))
  {
    var noBackup: seq<VolumeBackupGap> := [];
    var recent := now - backupAgeDays * SecondsPerDay;
    var accountId: string;
    match account {
      case Fail(e) =>
        if e.OtherError? {
          return Raised(e);
        }
        return Returned(ErrorDict(AccountIdError));
      case Ok(id) =>
        accountId := id;
    }
    var i := 0;
    assert volumes[0..] == volumes;
    PrependNothing(VolumesWithoutRecentBackup(volumes, accountId, snapshots, recent));
    while i < |volumes|
      invariant 0 <= i <= |volumes|
      invariant VolumesWithoutRecentBackup(volumes, accountId, snapshots, recent) ==
                Prepend(noBackup, VolumesWithoutRecentBackup(volumes[i..], accountId, snapshots, recent))
    {
      assert volumes[i..][1..] == volumes[i + 1..];
      assert VolumesWithoutRecentBackup(volumes[i..], accountId, snapshots, recent) == Then(BackupStep(volumes[i], accountId, snapshots, recent), VolumesWithoutRecentBackup(volumes[i + 1..], accountId, snapshots, recent));
      if BackupStep(volumes[i], accountId, snapshots, recent).Emit? {
        PrependTwice(noBackup, BackupStep(volumes[i], accountId, snapshots, recent).rows, VolumesWithoutRecentBackup(volumes[i + 1..], accountId, snapshots, recent));
      }
      var v := volumes[i];
      if v.volumeId != "" {
        match snapshots(accountId, v.volumeId) {
          case Ok(snaps) =>
            if !HasRecentSnapshot(snaps, recent) {
              noBackup := noBackup + [VolumeBackupGap(v.volumeId, v.size)];
            }
          case Fail(e) =>
            if e.OtherError? {
              return Raised(e);
            }
        }
      }
      i := i + 1;
    }
    assert noBackup + [] == noBackup;
    return Returned(Rows(noBackup));
  }

  /** A volume is reported iff it has an id, its snapshots could be listed,
      and none of them started after the limit. */
  lemma {:induction false} VolumesWithoutRecentBackupMembers(volumes: seq<Volume>, account: string,
                                                             snapshots: (string, string) -> ApiResult<seq<Snapshot>>,
                                                             recent: int)
    ensures VolumesWithoutRecentBackup(volumes, account, snapshots, recent).Raised? <==>
              exists v :: v in volumes && v.volumeId != "" && Escapes(snapshots(account, v.volumeId))
    ensures VolumesWithoutRecentBackup(volumes, account, snapshots, recent).Returned? ==>
              forall g :: g in VolumesWithoutRecentBackup(volumes, account, snapshots, recent).value <==>
                            exists v :: v in volumes && v.volumeId != "" && snapshots(account, v.volumeId).Ok? &&
                                        !HasRecentSnapshot(snapshots(account, v.volumeId).value, recent) &&
                                        g == VolumeBackupGap(v.volumeId, v.size)
  {
    if volumes != [] {
      VolumesWithoutRecentBackupMembers(volumes[1..], account, snapshots, recent);
      assert volumes == [volumes[0]] + volumes[1..];
    }
  }

  // ---------------------------------------------------------------------
  // check_ec2_detailed_monitoring: instances whose monitoring is "disabled".

  function DisabledMonitoring(instances: seq<Instance>): seq<UnmonitoredInstance> {
    if instances == [] then []
    else (if instances[0].monitoringState == Some("disabled") then [Unmonitored(instances[0])] else [])
         + DisabledMonitoring(instances[1..])
  }

  method CheckEc2DetailedMonitoring(instances: seq<Instance>) returns (r: seq<UnmonitoredInstance>)
    ensures r == DisabledMonitoring(instances)
  {
    r := [];
    var i := 0;
    assert instances[0..] == instances;
    while i < |instances|
      invariant 0 <= i <= |instances|
      invariant r + DisabledMonitoring(instances[i..]) == DisabledMonitoring(instances)
    {
      assert instances[i..][1..] == instances[i + 1..];
      var inst := instances[i];
      if inst.monitoringState == Some("disabled") {
        r := r + [UnmonitoredInstance(inst.instanceId, FirstNameTag(inst.tags).GetOr(NoName))];
      }
      i := i + 1;
    }
  }

  /** An instance is listed iff its monitoring state is exactly "disabled"
      (a missing state does not count), under its first Name tag or "N/A". */
  lemma {:induction false} DisabledMonitoringMembers(instances: seq<Instance>)
    ensures forall e :: e in DisabledMonitoring(instances) <==>
                          exists x :: x in instances && x.monitoringState == Some("disabled") && e == Unmonitored(x)
  {
    if instances != [] {
      DisabledMonitoringMembers(instances[1..]);
      assert instances == [instances[0]] + instances[1..];
    }
  }

  // ---------------------------------------------------------------------
  // check_cloudformation_drift: detect drift, poll until it settles.

  predicate Settles(d: DriftDetection) {
    d.detectionStatus == DetectionComplete || d.detectionStatus == DetectionFailed
  }

  /** How the `while True` poll ends on a finite trace of answers: at the
      first settled status, at the first failed call, or not within the trace. */
  datatype PollResult = Settled(status: DriftDetection) | PollFailed(error: ApiError) | Pending

  /** Every answer before index `k` was a status that had not settled. */
  predicate StillRunning(trace: seq<ApiResult<DriftDetection>>, k: int)
    requires 0 <= k <= |trace|
  {
    forall j :: 0 <= j < k ==> trace[j].Ok? && !Settles(trace[j].value)
  }

  function FirstSettled(trace: seq<ApiResult<DriftDetection>>): (p: PollResult)
    ensures p.Settled? ==>
              exists k :: 0 <= k < |trace| && trace[k] == Ok(p.status) && Settles(p.status) && StillRunning(trace, k)
    ensures p.PollFailed? ==> exists k :: 0 <= k < |trace| && trace[k] == Fail(p.error) && StillRunning(trace, k)
    ensures p.Pending? <==> StillRunning(trace, |trace|)
  {
    if trace == [] then Pending
    else
      match trace[0]
      case Fail(e) => PollFailed(e)
      case Ok(st) =>
        if Settles(st) then Settled(st)
        else
          var p := FirstSettled(trace[1..]);
          assert forall j :: 0 < j < |trace| ==> trace[j] == trace[1..][j - 1];
          assert p.Settled? ==> exists k :: 0 <= k < |trace| && trace[k] == Ok(p.status) && Settles(p.status) && StillRunning(trace, k) by {
            if p.Settled? {
              var k :| 0 <= k < |trace[1..]| && trace[1..][k] == Ok(p.status) && Settles(p.status) && StillRunning(trace[1..], k);
              assert trace[k + 1] == Ok(p.status) && StillRunning(trace, k + 1);
            }
          }
          assert p.PollFailed? ==> exists k :: 0 <= k < |trace| && trace[k] == Fail(p.error) && StillRunning(trace, k) by {
            if p.PollFailed? {
              var k :| 0 <= k < |trace[1..]| && trace[1..][k] == Fail(p.error) && StillRunning(trace[1..], k);
              assert trace[k + 1] == Fail(p.error) && StillRunning(trace, k + 1);
            }
          }
          p
  }

  /** The poll loop over the answers `trace` of describe_stack_drift_detection_status. */
  method PollDriftDetection(trace: seq<ApiResult<DriftDetection>>) returns (p: PollResult)
    ensures p == FirstSettled(trace)
  {
    var k := 0;
    while k < |trace|
      invariant 0 <= k <= |trace|
      invariant StillRunning(trace, k)
    {
      match trace[k] {
        case Fail(e) =>
          return PollFailed(e);
        case Ok(status) =>
          if status.detectionStatus == DetectionComplete || status.detectionStatus == DetectionFailed {
            return Settled(status);
          }
      }
      k := k + 1;
    }
    return Pending;
  }

  datatype DriftedStack = DriftedStack(stackName: string, driftStatus: string)

  /** One stack: detect_stack_drift, the poll, then the drift status. A
      ClientError anywhere (drift detection not supported, or another code)
      skips the stack; a poll that does not settle within the trace adds
      nothing. */
  function DriftStep(s: StackSummary, detect: string -> ApiResult<string>,
                     polls: string -> seq<ApiResult<DriftDetection>>): Step<DriftedStack> {
    if s.stackName == "" then Emit([])
    else
      match detect(s.stackName)
      case Fail(ClientError(_, _)) => Emit([])
      case Fail(OtherError(t)) => Stop(OtherError(t))
      case Ok(id) =>
        match FirstSettled(polls(id))
        case Settled(st) => Emit(if st.stackDriftStatus == Some("DRIFTED") then [DriftedStack(s.stackName, "DRIFTED")] else [])
        case PollFailed(ClientError(_, _)) => Emit([])
        case PollFailed(OtherError(t)) => Stop(OtherError(t))
        case Pending => Emit([])
  }

  function DriftedStacks(stacks: seq<StackSummary>, detect: string -> ApiResult<string>,
                         polls: string -> seq<ApiResult<DriftDetection>>): Run<seq<DriftedStack>> {
    if stacks == [] then Returned([])
    else Then(DriftStep(stacks[0], detect, polls), DriftedStacks(stacks[1..], detect, polls))
  }

  method CheckCloudFormationDrift(stacks: seq<StackSummary>, detect: string -> ApiResult<string>,
                                  polls: string -> seq<ApiResult<DriftDetection>>) returns (r: Run<seq<DriftedStack>>)
    ensures r == DriftedStacks(stacks, detect, polls)
  {
    var drifted: seq<DriftedStack> := [];
    var i := 0;
    assert stacks[0..] == stacks;
    PrependNothing(DriftedStacks(stacks, detect, polls));
    while i < |stacks|
      invariant 0 <= i <= |stacks|
      invariant DriftedStacks(stacks, detect, polls) == Prepend(drifted, DriftedStacks(stacks[i..], detect, polls))
    {
      assert stacks[i..][1..] == stacks[i + 1..];
      assert DriftedStacks(stacks[i..], detect, polls) == Then(DriftStep(stacks[i], detect, polls), DriftedStacks(stacks[i + 1..], detect, polls));
      if DriftStep(stacks[i], detect, polls).Emit? {
        PrependTwice(drifted, DriftStep(stacks[i], detect, polls).rows, DriftedStacks(stacks[i + 1..], detect, polls));
      }
      var name := stacks[i].stackName;
      if name != "" {
        match detect(name) {
          case Fail(e) =>
            if e.OtherError? {
              return Raised(e);
            }
          case Ok(id) =>
            var p := PollDriftDetection(polls(id));
            match p {
              case Settled(status) =>
                if status.stackDriftStatus == Some("DRIFTED") {
                  drifted := drifted + [DriftedStack(name, "DRIFTED")];
                }
              case PollFailed(e) =>
                if e.OtherError? {
                  return Raised(e);
                }
              case Pending =>
            }
        }
      }
      i := i + 1;
    }
    assert drifted + [] == drifted;
    return Returned(drifted);
  }

  /** Whether a stack makes check_cloudformation_drift raise: a named stack
      whose detect_stack_drift, or one of whose status polls before the
      detection settled, fails with something other than a ClientError. */
  predicate DriftEscapes(s: StackSummary, detect: string -> ApiResult<string>,
                         polls: string -> seq<ApiResult<DriftDetection>>) {
    s.stackName != "" &&
    (Escapes(detect(s.stackName)) ||
     (detect(s.stackName).Ok? && FirstSettled(polls(detect(s.stackName).value)).PollFailed? &&
      FirstSettled(polls(detect(s.stackName).value)).error.OtherError?))
  }

  /** The check raises iff some stack escapes, and then with the error of the
      first such stack's failing call. */
  lemma {:induction false} DriftedStacksRaised(stacks: seq<StackSummary>, detect: string -> ApiResult<string>,
                                               polls: string -> seq<ApiResult<DriftDetection>>)
    ensures DriftedStacks(stacks, detect, polls).Raised? <==> exists s :: s in stacks && DriftEscapes(s, detect, polls)
    ensures DriftedStacks(stacks, detect, polls).Raised? ==> DriftedStacks(stacks, detect, polls).error.OtherError?
  {
    if stacks != [] {
      DriftedStacksRaised(stacks[1..], detect, polls);
      assert stacks == [stacks[0]] + stacks[1..];
      var s0 := stacks[0];
      if s0.stackName != "" && detect(s0.stackName).Ok? {
        var p := FirstSettled(polls(detect(s0.stackName).value));
        assert DriftStep(s0, detect, polls).Stop? <==> p.PollFailed? && p.error.OtherError?;
      }
      assert DriftStep(s0, detect, polls).Stop? <==> DriftEscapes(s0, detect, polls);
    }
  }

  /** A stack is reported iff it is named, its detection started, its poll
      settled, and the settled status says "DRIFTED". */
  lemma {:induction false} DriftedStacksMembers(stacks: seq<StackSummary>, detect: string -> ApiResult<string>,
                                                polls: string -> seq<ApiResult<DriftDetection>>)
    ensures DriftedStacks(stacks, detect, polls).Returned? ==>
              forall d :: d in DriftedStacks(stacks, detect, polls).value <==>
                            exists s :: s in stacks && s.stackName != "" && detect(s.stackName).Ok? &&
                                        FirstSettled(polls(detect(s.stackName).value)).Settled? &&
                                        FirstSettled(polls(detect(s.stackName).value)).status.stackDriftStatus == Some("DRIFTED") &&
                                        d == DriftedStack(s.stackName, "DRIFTED")
  {
    if stacks != [] {
      DriftedStacksMembers(stacks[1..], detect, polls);
      assert stacks == [stacks[0]] + stacks[1..];
    }
  }
}
