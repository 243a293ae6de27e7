/** The discovery reports of backend/core/enhanced_discovery.py. Each lists
    one kind of resource, copies a few fields of every record into a result
    row, and turns any exception into `{"error": "<context>Error: <text>"}`.
    The listing's `response.get(<key>, [])` is the listing itself: a
    response without the key is the empty listing. */
module EnhancedDiscovery {
  import opened Aws
  import opened Json
  import opened Resources

  // ---------------------------------------------------------------------
  // get_ec2_rightsizing_recommendations

  const RightsizingContext: string := "Could not retrieve Compute Optimizer data. Error: "
  const OverProvisioned: string := "OVER_PROVISIONED"
  /** What `str(e)` renders for the IndexError of `[][0]`. */
  const IndexOutOfRange: string := "list index out of range"

  datatype Rightsizing = Rightsizing(instanceArn: string, currentInstanceType: string, recommendedInstanceType: string) {
    function ToJson(): Json {
      JObj([("instanceArn", JStr(instanceArn)), ("current_instance_type", JStr(currentInstanceType)),
            ("recommended_instance_type", JStr(recommendedInstanceType))])
    }
  }

  predicate IsOverProvisioned(rec: InstanceRecommendation) {
    rec.finding == Some(OverProvisioned)
  }

  /** One recommendation: skipped unless over-provisioned; otherwise its
      first option's type, and the IndexError when it has no option. */
  function RightsizingStep(rec: InstanceRecommendation): Step<Rightsizing> {
    if !IsOverProvisioned(rec) then Emit([])
    else if rec.recommendationOptions == [] then Stop(OtherError(IndexOutOfRange))
    else Emit([Rightsizing(rec.instanceArn, rec.currentInstanceType, rec.recommendationOptions[0].instanceType)])
  }

  function RightsizingLoop(recs: seq<InstanceRecommendation>): Run<seq<Rightsizing>> {
    if recs == [] then Returned([])
    else Then(RightsizingStep(recs[0]), RightsizingLoop(recs[1..]))
  }

  /** Reference definition of get_ec2_rightsizing_recommendations. */
  function Ec2RightsizingRecommendations(response: ApiResult<seq<InstanceRecommendation>>): Finding<Rightsizing> {
    match response
    case Fail(e) => ErrorDict(RightsizingContext + e.text)
    case Ok(recs) => Caught(RightsizingLoop(recs), RightsizingContext)
  }

  method GetEc2RightsizingRecommendations(response: ApiResult<seq<InstanceRecommendation>>)
    returns (r: Finding<Rightsizing>)
    ensures r == Ec2RightsizingRecommendations(response)
  {
    if response.Fail? {
      return ErrorDict(RightsizingContext + response.error.text);
    }
    var recs := response.value;
    var recommendations: seq<Rightsizing> := [];
    var i := 0;
    assert recs[0..] == recs;
    PrependNothing(RightsizingLoop(recs));
    while i < |recs|
      invariant 0 <= i <= |recs|
      invariant RightsizingLoop(recs) == Prepend(recommendations, RightsizingLoop(recs[i..]))
    {
      assert recs[i..][1..] == recs[i + 1..];
      assert RightsizingLoop(recs[i..]) == Then(RightsizingStep(recs[i]), RightsizingLoop(recs[i + 1..]));
      if RightsizingStep(recs[i]).Emit? {
        PrependTwice(recommendations, RightsizingStep(recs[i]).rows, RightsizingLoop(recs[i + 1..]));
      }
      var rec := recs[i];
      if rec.finding == Some(OverProvisioned) {
        if |rec.recommendationOptions| == 0 {
          return ErrorDict(RightsizingContext + IndexOutOfRange);
        }
        recommendations := recommendations + [Rightsizing(rec.instanceArn, rec.currentInstanceType,
                                                          rec.recommendationOptions[0].instanceType)];
      }
      i := i + 1;
    }
    assert recs[i..] == [];
    assert recommendations + [] == recommendations;
    return Rows(recommendations);
  }

  /** The over-provisioned recommendations, in their order. */
  function OverProvisionedOf(recs: seq<InstanceRecommendation>): (r: seq<InstanceRecommendation>)
    ensures forall rec :: rec in r <==> rec in recs && IsOverProvisioned(rec)
    ensures IsSubsequence(r, recs)
  {
    if recs == [] then []
    else
      var rest := OverProvisionedOf(recs[1..]);
      assert recs == [recs[0]] + recs[1..];
      if IsOverProvisioned(recs[0]) then
        assert ([recs[0]] + rest)[1..] == rest;
        [recs[0]] + rest
      else
        SubsequenceOfCons(rest, recs[1..], recs[0]);
        rest
  }

  /** The row an over-provisioned recommendation earns: its first option. */
  predicate RowFor(row: Rightsizing, rec: InstanceRecommendation) {
    rec.recommendationOptions != [] &&
    row == Rightsizing(rec.instanceArn, rec.currentInstanceType, rec.recommendationOptions[0].instanceType)
  }

  /** The loop fails exactly when an over-provisioned recommendation has no
      option, and then with the IndexError. */
  lemma {:induction false} RightsizingLoopRaised(recs: seq<InstanceRecommendation>)
    ensures RightsizingLoop(recs).Raised? <==>
              exists rec :: rec in recs && IsOverProvisioned(rec) && rec.recommendationOptions == []
    ensures RightsizingLoop(recs).Raised? ==> RightsizingLoop(recs).error == OtherError(IndexOutOfRange)
  {
    if recs != [] {
      RightsizingLoopRaised(recs[1..]);
      assert recs == [recs[0]] + recs[1..];
    }
  }

  /** Otherwise it emits one row per over-provisioned recommendation, in
      order, naming that recommendation's first option. */
  lemma {:induction false} RightsizingLoopRows(recs: seq<InstanceRecommendation>)
    ensures RightsizingLoop(recs).Returned? ==>
              var rows := RightsizingLoop(recs).value;
              var over := OverProvisionedOf(recs);
              |rows| == |over| && forall i :: 0 <= i < |rows| ==> RowFor(rows[i], over[i])
  {
    if recs != [] {
      RightsizingLoopRows(recs[1..]);
      var rest := RightsizingLoop(recs[1..]);
      if RightsizingLoop(recs).Returned? && IsOverProvisioned(recs[0]) {
        var over := OverProvisionedOf(recs);
        var tail := OverProvisionedOf(recs[1..]);
        assert over == [recs[0]] + tail;
        var rows := RightsizingLoop(recs).value;
        assert rows == RightsizingStep(recs[0]).rows + rest.value;
        forall i | 0 <= i < |rows| ensures RowFor(rows[i], over[i]) {
          if i > 0 {
            assert rows[i] == rest.value[i - 1];
            assert over[i] == tail[i - 1];
          }
        }
      }
    }
  }

  /** The report is the error dictionary exactly when the listing fails or
      an over-provisioned recommendation has no option. */
  lemma RightsizingFails(response: ApiResult<seq<InstanceRecommendation>>)
    ensures Ec2RightsizingRecommendations(response).ErrorDict? <==>
              response.Fail? ||
              exists rec :: rec in response.value && IsOverProvisioned(rec) && rec.recommendationOptions == []
  {
    if response.Ok? {
      RightsizingLoopRaised(response.value);
    }
  }

  // ---------------------------------------------------------------------
  // get_unattached_volumes

  const VolumesContext: string := "Could not retrieve EBS Volume data. Error: "
  /** The server-side filter of the listing: volumes attached to nothing. */
  const Available: string := "available"

  datatype UnattachedVolume = UnattachedVolume(volumeId: string, sizeGiB: int, createTime: string) {
    function ToJson(): Json {
      JObj([("VolumeId", JStr(volumeId)), ("SizeGiB", JInt(sizeGiB)), ("CreateTime", JStr(createTime))])
    }
  }

  /** The loop: one row per volume, in order, its creation time rendered. */
  method UnattachedRows(volumes: seq<Volume>) returns (unattached: seq<UnattachedVolume>)
    ensures |unattached| == |volumes|
    ensures forall i :: 0 <= i < |volumes| ==>
              unattached[i] == UnattachedVolume(volumes[i].volumeId, volumes[i].size, volumes[i].createTime.iso)
  {
    unattached := [];
    var i := 0;
    while i < |volumes|
      invariant 0 <= i <= |volumes|
      invariant |unattached| == i
      invariant forall j :: 0 <= j < i ==>
                  unattached[j] == UnattachedVolume(volumes[j].volumeId, volumes[j].size, volumes[j].createTime.iso)
    {
      var volume := volumes[i];
      unattached := unattached + [UnattachedVolume(volume.volumeId, volume.size, volume.createTime.iso)];
      i := i + 1;
    }
  }

  /** A failed listing gives the error dictionary; otherwise exactly one row
      per available volume, in listing order. */
  method GetUnattachedVolumes(response: ApiResult<seq<Volume>>) returns (r: Finding<UnattachedVolume>)
    ensures response.Fail? ==> r == ErrorDict(VolumesContext + response.error.text)
    ensures response.Ok? ==>
              var listed := VolumesWithStatus(response.value, Available);
              r.Rows? && |r.rows| == |listed| &&
              forall i :: 0 <= i < |listed| ==>
                listed[i].status == Available &&
                r.rows[i] == UnattachedVolume(listed[i].volumeId, listed[i].size, listed[i].createTime.iso)
  {
    if response.Fail? {
      return ErrorDict(VolumesContext + response.error.text);
    }
    var listed := VolumesWithStatus(response.value, Available);
    assert forall i :: 0 <= i < |listed| ==> listed[i] in listed;
    var unattached := UnattachedRows(listed);
    return Rows(unattached);
  }

  // ---------------------------------------------------------------------
  // get_rds_instance_status

  const RdsContext: string := "Could not retrieve RDS data. Error: "

  /** The loop: one Multi-AZ record per DB instance, in order. */
  method MultiAzRows(instances: seq<DbInstance>) returns (status: seq<MultiAzStatus>)
    ensures |status| == |instances|
    ensures forall i :: 0 <= i < |instances| ==>
              status[i].dbInstanceIdentifier == instances[i].dbInstanceIdentifier &&
              status[i].engine == instances[i].engine && status[i].isMultiAZ == instances[i].multiAZ
  {
    status := [];
    var i := 0;
    while i < |instances|
      invariant 0 <= i <= |instances|
      invariant |status| == i
      invariant forall j :: 0 <= j < i ==> status[j] == MultiAzOf(instances[j])
    {
      var db := instances[i];
      status := status + [MultiAzStatus(db.dbInstanceIdentifier, db.engine, db.multiAZ)];
      i := i + 1;
    }
  }

  method GetRdsInstanceStatus(response: ApiResult<seq<DbInstance>>) returns (r: Finding<MultiAzStatus>)
    ensures response.Fail? ==> r == ErrorDict(RdsContext + response.error.text)
    ensures response.Ok? ==>
              r.Rows? && |r.rows| == |response.value| &&
              forall i :: 0 <= i < |response.value| ==> r.rows[i] == MultiAzOf(response.value[i])
  {
    if response.Fail? {
      return ErrorDict(RdsContext + response.error.text);
    }
    var status := MultiAzRows(response.value);
    return Rows(status);
  }

  // ---------------------------------------------------------------------
  // check_secrets_rotation

  const SecretsContext: string := "Could not retrieve Secrets Manager data. Error: "

  datatype SecretRotation = SecretRotation(name: string, rotationEnabled: bool) {
    function ToJson(): Json {
      JObj([("Name", JStr(name)), ("RotationEnabled", JBool(rotationEnabled))])
    }
  }

  /** The loop: one record per secret, in order; rotation counts as enabled
      only where the listing says so. */
  method RotationRows(secrets: seq<Secret>) returns (secretsStatus: seq<SecretRotation>)
    ensures |secretsStatus| == |secrets|
    ensures forall i :: 0 <= i < |secrets| ==>
              secretsStatus[i].name == secrets[i].name &&
              (secretsStatus[i].rotationEnabled <==> secrets[i].rotationEnabled == Some(true))
  {
    secretsStatus := [];
    var i := 0;
    while i < |secrets|
      invariant 0 <= i <= |secrets|
      invariant |secretsStatus| == i
      invariant forall j :: 0 <= j < i ==>
                  secretsStatus[j] == SecretRotation(secrets[j].name, secrets[j].rotationEnabled.GetOr(false))
    {
      var secret := secrets[i];
      secretsStatus := secretsStatus + [SecretRotation(secret.name, secret.rotationEnabled.GetOr(false))];
      i := i + 1;
    }
  }

  method CheckSecretsRotation(response: ApiResult<seq<Secret>>) returns (r: Finding<SecretRotation>)
    ensures response.Fail? ==> r == ErrorDict(SecretsContext + response.error.text)
    ensures response.Ok? ==>
              r.Rows? && |r.rows| == |response.value| &&
              forall i :: 0 <= i < |response.value| ==>
                r.rows[i].name == response.value[i].name &&
                (r.rows[i].rotationEnabled <==> response.value[i].rotationEnabled == Some(true))
  {
    if response.Fail? {
      return ErrorDict(SecretsContext + response.error.text);
    }
    var secretsStatus := RotationRows(response.value);
    return Rows(secretsStatus);
  }
}
