/** The checks of backend/core/advanced_checks.py. Like the additional
    checks, each makes its own listing calls and turns any exception that
    reaches its outer handler into `{"error": "<context> Error: <text>"}`. */
module AdvancedChecks {
  import opened Aws
  import opened Json
  import opened Resources

  // ---------------------------------------------------------------------
  // check_vpc_flow_logs

  const FlowLogsContext: string := "Could not check VPC Flow Logs. Error: "

  /** Reference definition: both listings are made before the loop, VPCs first. */
  function VpcFlowLogs(vpcs: ApiResult<seq<Vpc>>, flowLogs: ApiResult<seq<FlowLog>>): Finding<string> {
    match vpcs
    case Fail(e) => ErrorDict(FlowLogsContext + e.text)
    case Ok(vs) =>
      match flowLogs
      case Fail(e) => ErrorDict(FlowLogsContext + e.text)
      case Ok(logs) => Rows(VpcsWithoutFlowLogs(vs, FlowLoggedIds(logs)))
  }

  method CheckVpcFlowLogs(vpcs: ApiResult<seq<Vpc>>, flowLogs: ApiResult<seq<FlowLog>>) returns (r: Finding<string>)
    ensures r == VpcFlowLogs(vpcs, flowLogs)
  {
    if vpcs.Fail? {
      return ErrorDict(FlowLogsContext + vpcs.error.text);
    }
    if flowLogs.Fail? {
      return ErrorDict(FlowLogsContext + flowLogs.error.text);
    }
    var vs := vpcs.value;
    var vpcsWithLogs := set log | log in flowLogs.value :: log.resourceId;
    var withoutLogs: seq<string> := [];
    var i := 0;
    assert vs[0..] == vs;
    while i < |vs|
      invariant 0 <= i <= |vs|
      invariant withoutLogs + VpcsWithoutFlowLogs(vs[i..], vpcsWithLogs) == VpcsWithoutFlowLogs(vs, vpcsWithLogs)
    {
      assert vs[i..][1..] == vs[i + 1..];
      if vs[i].vpcId !in vpcsWithLogs {
        withoutLogs := withoutLogs + [vs[i].vpcId];
      }
      i := i + 1;
    }
    assert vs[i..] == [];
    assert withoutLogs + [] == withoutLogs;
    return Rows(withoutLogs);
  }

  /** Either listing failing gives the error dictionary, never a partial list;
      otherwise the VPC ids no flow log covers, in VPC order. */
  lemma VpcFlowLogsMeaning(vpcs: ApiResult<seq<Vpc>>, flowLogs: ApiResult<seq<FlowLog>>)
    ensures VpcFlowLogs(vpcs, flowLogs).ErrorDict? <==> vpcs.Fail? || flowLogs.Fail?
    ensures VpcFlowLogs(vpcs, flowLogs).Rows? ==>
              var ids := VpcFlowLogs(vpcs, flowLogs).rows;
              IsSubsequence(ids, VpcIds(vpcs.value)) &&
              forall id :: id in ids <==> id in VpcIds(vpcs.value) && forall l :: l in flowLogs.value ==> l.resourceId != id
  {
    if vpcs.Ok? && flowLogs.Ok? {
      VpcsWithoutFlowLogsMeaning(vpcs.value, FlowLoggedIds(flowLogs.value));
    }
  }

  // ---------------------------------------------------------------------
  // check_cloudformation_stack_drift

  const DriftContext: string := "Could not check CloudFormation drift. Error: "

  /** The stack statuses list_stacks is filtered on. */
  const ExaminedStatuses: set<string> := {"CREATE_COMPLETE", "UPDATE_COMPLETE", "UPDATE_ROLLBACK_COMPLETE"}

  datatype DriftRow = DriftRow(stackName: string, driftStatus: string, detectionStatusReason: string) {
    function ToJson(): Json {
      JObj([("StackName", JStr(stackName)), ("DriftStatus", JStr(driftStatus)),
            ("DetectionStatusReason", JStr(detectionStatusReason))])
    }
  }

  /** One stack as the waiter is meant to run. `detect` answers
      detect_stack_drift with the detection id; `settle` is the status
      describe_stack_drift_detection_status gives once the waiter has
      returned. A waiter returns only on "DETECTION_COMPLETE" and raises on
      "DETECTION_FAILED" or when it gives up, so only a completed detection
      is read. Any exception, including a missing StackDriftStatus entry,
      skips the stack (`except Exception: continue`). */
  function DriftRowOf(stackName: string, detect: string -> ApiResult<string>,
                      settle: string -> ApiResult<DriftDetection>): seq<DriftRow> {
    match detect(stackName)
    case Fail(_) => []
    case Ok(id) =>
      match settle(id)
      case Fail(_) => []
      case Ok(result) =>
        if result.detectionStatus == DetectionComplete && result.stackDriftStatus == Some("DRIFTED") then
          [DriftRow(stackName, "DRIFTED", result.detectionStatusReason.GetOr(""))]
        else []
  }

  function DriftRows(stacks: seq<StackSummary>, detect: string -> ApiResult<string>,
                     settle: string -> ApiResult<DriftDetection>): seq<DriftRow> {
    if stacks == [] then [] else DriftRowOf(stacks[0].stackName, detect, settle) + DriftRows(stacks[1..], detect, settle)
  }

  /** Reference definition of check_cloudformation_stack_drift: `listing` is
      every stack summary; the status filter is applied here. */
  function StackDrift(listing: ApiResult<seq<StackSummary>>, detect: string -> ApiResult<string>,
                      settle: string -> ApiResult<DriftDetection>): Finding<DriftRow> {
    match listing
    case Fail(e) => ErrorDict(DriftContext + e.text)
    case Ok(stacks) => Rows(DriftRows(StacksWithStatus(stacks, ExaminedStatuses), detect, settle))
  }

  /** The `try` block of one stack. */
  method DriftOfStack(stackName: string, detect: string -> ApiResult<string>, settle: string -> ApiResult<DriftDetection>)
    returns (rows: seq<DriftRow>)
    ensures rows == DriftRowOf(stackName, detect, settle)
  {
    rows := [];
    match detect(stackName) {
      case Fail(_) =>
      case Ok(id) =>
        match settle(id) {
          case Fail(_) =>
          case Ok(result) =>
            if result.detectionStatus == DetectionComplete && result.stackDriftStatus == Some("DRIFTED") {
              rows := [DriftRow(stackName, "DRIFTED", result.detectionStatusReason.GetOr(""))];
            }
        }
    }
  }

  /** The drift loop over the examined stacks, stack by stack. */
  method DriftRowsOf(stacks: seq<StackSummary>, detect: string -> ApiResult<string>,
                     settle: string -> ApiResult<DriftDetection>) returns (drifted: seq<DriftRow>)
    ensures drifted == DriftRows(stacks, detect, settle)
  {
    drifted := [];
    var i := 0;
    assert stacks[0..] == stacks;
    while i < |stacks|
      invariant 0 <= i <= |stacks|
      invariant drifted + DriftRows(stacks[i..], detect, settle) == DriftRows(stacks, detect, settle)
    {
      assert stacks[i..][1..] == stacks[i + 1..];
      var fromStack := DriftOfStack(stacks[i].stackName, detect, settle);
      drifted := drifted + fromStack;
      i := i + 1;
    }
    assert stacks[i..] == [];
    assert drifted + [] == drifted;
  }

  method CheckCloudFormationStackDrift(listing: ApiResult<seq<StackSummary>>, detect: string -> ApiResult<string>,
                                       settle: string -> ApiResult<DriftDetection>) returns (r: Finding<DriftRow>)
    ensures r == StackDrift(listing, detect, settle)
  {
    if listing.Fail? {
      return ErrorDict(DriftContext + listing.error.text);
    }
    var drifted := DriftRowsOf(StacksWithStatus(listing.value, ExaminedStatuses), detect, settle);
    return Rows(drifted);
  }

  /** What one examined stack's detection makes the check report. */
  predicate ReportsDrift(d: DriftRow, s: StackSummary, detect: string -> ApiResult<string>,
                         settle: string -> ApiResult<DriftDetection>) {
    detect(s.stackName).Ok? && settle(detect(s.stackName).value).Ok? &&
    var result := settle(detect(s.stackName).value).value;
    result.detectionStatus == DetectionComplete && result.stackDriftStatus == Some("DRIFTED") &&
    d == DriftRow(s.stackName, "DRIFTED", result.detectionStatusReason.GetOr(""))
  }

  /** A stack is reported iff its status is one of the three examined ones
      and its detection completed as "DRIFTED"; a failure for one stack skips
      only that stack. */
  lemma {:induction false} DriftRowsMembers(stacks: seq<StackSummary>, detect: string -> ApiResult<string>,
                                            settle: string -> ApiResult<DriftDetection>)
    ensures forall d :: d in DriftRows(stacks, detect, settle) <==>
                          exists s :: s in stacks && ReportsDrift(d, s, detect, settle)
  {
    if stacks != [] {
      DriftRowsMembers(stacks[1..], detect, settle);
      assert stacks == [stacks[0]] + stacks[1..];
      assert forall d :: d in DriftRowOf(stacks[0].stackName, detect, settle) <==> ReportsDrift(d, stacks[0], detect, settle);
    }
  }

  lemma StackDriftMeaning(listing: ApiResult<seq<StackSummary>>, detect: string -> ApiResult<string>,
                          settle: string -> ApiResult<DriftDetection>)
    ensures StackDrift(listing, detect, settle).ErrorDict? <==> listing.Fail?
    ensures StackDrift(listing, detect, settle).Rows? ==>
              forall d :: d in StackDrift(listing, detect, settle).rows <==>
                            exists s :: s in listing.value && s.stackStatus in ExaminedStatuses &&
                                        ReportsDrift(d, s, detect, settle)
  {
    if listing.Ok? {
      DriftRowsMembers(StacksWithStatus(listing.value, ExaminedStatuses), detect, settle);
    }
  }

  // The waiter as written. `get_waiter` raises ValueError for a name its
  // client's service model does not define. The waiter list below is
  // botocore's CloudFormation list as recalled, not read from an installed
  // copy; it holds no "stack_drift_detection_complete" waiter.

  const DriftWaiter: string := "stack_drift_detection_complete"

  /** The waiter names of botocore's CloudFormation model, as recalled and
      spelled the way `get_waiter` takes them. */
  const CloudFormationWaiters: set<string> :=
    {"change_set_create_complete", "stack_create_complete", "stack_delete_complete", "stack_exists",
     "stack_import_complete", "stack_rollback_complete", "stack_update_complete", "type_registration_complete"}

  /** One stack as written, for a client that knows the waiters `waiters`:
      after detect_stack_drift, `get_waiter(DriftWaiter)` either raises,
      which skips the stack, or the intended wait follows. */
  function DriftRowOfAsWritten(stackName: string, detect: string -> ApiResult<string>,
                               settle: string -> ApiResult<DriftDetection>, waiters: set<string>): seq<DriftRow> {
    match detect(stackName)
    case Fail(_) => []
    case Ok(_) => if DriftWaiter in waiters then DriftRowOf(stackName, detect, settle) else []
  }

  function DriftRowsAsWritten(stacks: seq<StackSummary>, detect: string -> ApiResult<string>,
                              settle: string -> ApiResult<DriftDetection>, waiters: set<string>): seq<DriftRow> {
    if stacks == [] then []
    else DriftRowOfAsWritten(stacks[0].stackName, detect, settle, waiters) + DriftRowsAsWritten(stacks[1..], detect, settle, waiters)
  }

  /** check_cloudformation_stack_drift as written. */
  function StackDriftAsWritten(listing: ApiResult<seq<StackSummary>>, detect: string -> ApiResult<string>,
                               settle: string -> ApiResult<DriftDetection>, waiters: set<string>): Finding<DriftRow> {
    match listing
    case Fail(e) => ErrorDict(DriftContext + e.text)
    case Ok(stacks) => Rows(DriftRowsAsWritten(StacksWithStatus(stacks, ExaminedStatuses), detect, settle, waiters))
  }

  lemma {:induction false} DriftRowsAsWrittenWithoutWaiter(stacks: seq<StackSummary>, detect: string -> ApiResult<string>,
                                                           settle: string -> ApiResult<DriftDetection>, waiters: set<string>)
    requires DriftWaiter !in waiters
    ensures DriftRowsAsWritten(stacks, detect, settle, waiters) == []
  {
    if stacks != [] {
      DriftRowsAsWrittenWithoutWaiter(stacks[1..], detect, settle, waiters);
    }
  }

  lemma {:induction false} DriftRowsAsWrittenWithWaiter(stacks: seq<StackSummary>, detect: string -> ApiResult<string>,
                                                        settle: string -> ApiResult<DriftDetection>, waiters: set<string>)
    requires DriftWaiter in waiters
    ensures DriftRowsAsWritten(stacks, detect, settle, waiters) == DriftRows(stacks, detect, settle)
  {
    if stacks != [] {
      DriftRowsAsWrittenWithWaiter(stacks[1..], detect, settle, waiters);
    }
  }

  /** As written, the check never reports a drifted stack: whatever the
      stacks and their detections, it answers the empty list, or the error
      dictionary when the stack listing fails. */
  lemma DriftAsWrittenReportsNothing(listing: ApiResult<seq<StackSummary>>, detect: string -> ApiResult<string>,
                                     settle: string -> ApiResult<DriftDetection>)
    ensures StackDriftAsWritten(listing, detect, settle, CloudFormationWaiters) ==
              if listing.Fail? then ErrorDict(DriftContext + listing.error.text) else Rows([])
  {
    assert DriftWaiter !in CloudFormationWaiters;
    if listing.Ok? {
      DriftRowsAsWrittenWithoutWaiter(StacksWithStatus(listing.value, ExaminedStatuses), detect, settle, CloudFormationWaiters);
    }
  }

  /** With a client that did define the waiter, the code as written would be
      the corrected check. */
  lemma DriftAsWrittenWithWaiter(listing: ApiResult<seq<StackSummary>>, detect: string -> ApiResult<string>,
                                 settle: string -> ApiResult<DriftDetection>, waiters: set<string>)
    requires DriftWaiter in waiters
    ensures StackDriftAsWritten(listing, detect, settle, waiters) == StackDrift(listing, detect, settle)
  {
    if listing.Ok? {
      DriftRowsAsWrittenWithWaiter(StacksWithStatus(listing.value, ExaminedStatuses), detect, settle, waiters);
    }
  }

  // ---------------------------------------------------------------------
  // check_iam_access_key_age

  const KeyAgeContext: string := "Could not check IAM key age. Error: "
  const KeyAgeLimitDays: int := 90

  function UserKeysStep(u: User, keys: string -> ApiResult<seq<AccessKey>>, ageLimit: int): Step<AgedKey> {
    match keys(u.userName)
    case Ok(ks) => Emit(AgedKeysOf(u.userName, ks, ageLimit))
    case Fail(e) => Stop(e)
  }

  function OldKeysLoop(users: seq<User>, keys: string -> ApiResult<seq<AccessKey>>, ageLimit: int): Run<seq<AgedKey>> {
    if users == [] then Returned([])
    else Then(UserKeysStep(users[0], keys, ageLimit), OldKeysLoop(users[1..], keys, ageLimit))
  }

  /** Reference definition of check_iam_access_key_age for a given limit. */
  function IamAccessKeyAge(listing: ApiResult<seq<User>>, keys: string -> ApiResult<seq<AccessKey>>, ageLimit: int)
    : Finding<AgedKey>
  {
    match listing
    case Fail(e) => ErrorDict(KeyAgeContext + e.text)
    case Ok(users) => Caught(OldKeysLoop(users, keys, ageLimit), KeyAgeContext)
  }

  method KeysPastLimit(username: string, ks: seq<AccessKey>, ageLimit: int) returns (aged: seq<AgedKey>)
    ensures aged == AgedKeysOf(username, ks, ageLimit)
  {
    aged := [];
    var j := 0;
    assert ks[0..] == ks;
    while j < |ks|
      invariant 0 <= j <= |ks|
      invariant aged + AgedKeysOf(username, ks[j..], ageLimit) == AgedKeysOf(username, ks, ageLimit)
    {
      assert ks[j..][1..] == ks[j + 1..];
      var key := ks[j];
      if key.status == "Active" && key.createDate.epoch < ageLimit {
        aged := aged + [AgedKey(username, key.accessKeyId, key.createDate.iso)];
      }
      j := j + 1;
    }
    assert ks[j..] == [];
    assert aged + [] == aged;
  }

  method CheckIamAccessKeyAge(listing: ApiResult<seq<User>>, keys: string -> ApiResult<seq<AccessKey>>, now: int)
    returns (r: Finding<AgedKey>)
    ensures r == IamAccessKeyAge(listing, keys, DaysBefore(now, KeyAgeLimitDays))
  {
    var ninetyDaysAgo := now - 90 * SecondsPerDay;
    if listing.Fail? {
      return ErrorDict(KeyAgeContext + listing.error.text);
    }
    var users := listing.value;
    var oldKeys: seq<AgedKey> := [];
    var i := 0;
    assert users[0..] == users;
    PrependNothing(OldKeysLoop(users, keys, ninetyDaysAgo));
    while i < |users|
      invariant 0 <= i <= |users|
      invariant OldKeysLoop(users, keys, ninetyDaysAgo) == Prepend(oldKeys, OldKeysLoop(users[i..], keys, ninetyDaysAgo))
    {
      assert users[i..][1..] == users[i + 1..];
      assert OldKeysLoop(users[i..], keys, ninetyDaysAgo) ==
             Then(UserKeysStep(users[i], keys, ninetyDaysAgo), OldKeysLoop(users[i + 1..], keys, ninetyDaysAgo));
      if UserKeysStep(users[i], keys, ninetyDaysAgo).Emit? {
        PrependTwice(oldKeys, UserKeysStep(users[i], keys, ninetyDaysAgo).rows, OldKeysLoop(users[i + 1..], keys, ninetyDaysAgo));
      }
      var username := users[i].userName;
      match keys(username) {
        case Fail(e) =>
          return ErrorDict(KeyAgeContext + e.text);
        case Ok(ks) =>
          var aged := KeysPastLimit(username, ks, ninetyDaysAgo);
          oldKeys := oldKeys + aged;
      }
      i := i + 1;
    }
    assert oldKeys + [] == oldKeys;
    return Rows(oldKeys);
  }

  /** Any failed lookup aborts the whole check with the error dictionary;
      otherwise a key is reported iff it is active and older than the limit. */
  lemma {:induction false} OldKeysLoopMeaning(users: seq<User>, keys: string -> ApiResult<seq<AccessKey>>, ageLimit: int)
    ensures OldKeysLoop(users, keys, ageLimit).Raised? <==> exists u :: u in users && keys(u.userName).Fail?
    ensures OldKeysLoop(users, keys, ageLimit).Returned? ==>
              forall a :: a in OldKeysLoop(users, keys, ageLimit).value <==>
                            exists u, k :: u in users && keys(u.userName).Ok? && k in keys(u.userName).value &&
                                           IsAged(k, ageLimit) && a == AgedKey(u.userName, k.accessKeyId, k.createDate.iso)
  {
    if users != [] {
      OldKeysLoopMeaning(users[1..], keys, ageLimit);
      assert users == [users[0]] + users[1..];
      if keys(users[0].userName).Ok? {
        AgedKeysOfMembers(users[0].userName, keys(users[0].userName).value, ageLimit);
      }
    }
  }
}
