/** get_ec2_rightsizing_recommendations of core/enhanced_discovery.py: the
    variant whose rows also carry the finding. Its unattached-volume, RDS
    and secrets reports are the same code as the backend's and share that
    model. */
module CoreEnhancedDiscovery {
  import opened Aws
  import opened Json
  import opened Resources
  import opened EnhancedDiscovery

  const CoreRightsizingContext: string :=
    "Could not retrieve Compute Optimizer data. Ensure the service is enabled. Error: "

  datatype CoreRightsizing = CoreRightsizing(
    instanceArn: string, currentInstanceType: string, finding: string, recommendedInstanceType: string)
  {
    function ToJson(): Json {
      JObj([("instanceArn", JStr(instanceArn)), ("current_instance_type", JStr(currentInstanceType)),
            ("finding", JStr(finding)), ("recommended_instance_type", JStr(recommendedInstanceType))])
    }
  }

  /** One recommendation: skipped unless over-provisioned; otherwise its
      finding and its first option's type, and the IndexError when it has no
      option. */
  function CoreRightsizingStep(rec: InstanceRecommendation): Step<CoreRightsizing> {
    if !IsOverProvisioned(rec) then Emit([])
    else if rec.recommendationOptions == [] then Stop(OtherError(IndexOutOfRange))
    else Emit([CoreRightsizing(rec.instanceArn, rec.currentInstanceType, rec.finding.value,
                               rec.recommendationOptions[0].instanceType)])
  }

  function CoreRightsizingLoop(recs: seq<InstanceRecommendation>): Run<seq<CoreRightsizing>> {
    if recs == [] then Returned([])
    else Then(CoreRightsizingStep(recs[0]), CoreRightsizingLoop(recs[1..]))
  }

  /** Reference definition; any exception, the listing's included, gives the
      error dictionary. */
  function CoreEc2RightsizingRecommendations(response: ApiResult<seq<InstanceRecommendation>>)
    : Finding<CoreRightsizing>
  {
    match response
    case Fail(e) => ErrorDict(CoreRightsizingContext + e.text)
    case Ok(recs) => Caught(CoreRightsizingLoop(recs), CoreRightsizingContext)
  }

  method GetEc2RightsizingRecommendations(response: ApiResult<seq<InstanceRecommendation>>)
    returns (r: Finding<CoreRightsizing>)
    ensures r == CoreEc2RightsizingRecommendations(response)
  {
    if response.Fail? {
      return ErrorDict(CoreRightsizingContext + response.error.text);
    }
    var recs := response.value;
    var recommendations: seq<CoreRightsizing> := [];
    var i := 0;
    assert recs[0..] == recs;
    PrependNothing(CoreRightsizingLoop(recs));
    while i < |recs|
      invariant 0 <= i <= |recs|
      invariant CoreRightsizingLoop(recs) == Prepend(recommendations, CoreRightsizingLoop(recs[i..]))
    {
      assert recs[i..][1..] == recs[i + 1..];
      assert CoreRightsizingLoop(recs[i..]) == Then(CoreRightsizingStep(recs[i]), CoreRightsizingLoop(recs[i + 1..]));
      if CoreRightsizingStep(recs[i]).Emit? {
        PrependTwice(recommendations, CoreRightsizingStep(recs[i]).rows, CoreRightsizingLoop(recs[i + 1..]));
      }
      var rec := recs[i];
      if rec.finding == Some(OverProvisioned) {
        if |rec.recommendationOptions| == 0 {
          return ErrorDict(CoreRightsizingContext + IndexOutOfRange);
        }
        recommendations := recommendations + [CoreRightsizing(rec.instanceArn, rec.currentInstanceType,
                                                              rec.finding.value, rec.recommendationOptions[0].instanceType)];
      }
      i := i + 1;
    }
    assert recs[i..] == [];
    assert recommendations + [] == recommendations;
    return Rows(recommendations);
  }

  /** The row an over-provisioned recommendation earns: its finding copied
      unchanged, and its first option. */
  predicate CoreRowFor(row: CoreRightsizing, rec: InstanceRecommendation) {
    rec.recommendationOptions != [] && rec.finding == Some(row.finding) &&
    row == CoreRightsizing(rec.instanceArn, rec.currentInstanceType, OverProvisioned,
                           rec.recommendationOptions[0].instanceType)
  }

  /** The loop fails exactly when an over-provisioned recommendation has no
      option, and then with the IndexError. */
  lemma {:induction false} CoreRightsizingLoopRaised(recs: seq<InstanceRecommendation>)
    ensures CoreRightsizingLoop(recs).Raised? <==>
              exists rec :: rec in recs && IsOverProvisioned(rec) && rec.recommendationOptions == []
    ensures CoreRightsizingLoop(recs).Raised? ==> CoreRightsizingLoop(recs).error == OtherError(IndexOutOfRange)
  {
    if recs != [] {
      CoreRightsizingLoopRaised(recs[1..]);
      assert recs == [recs[0]] + recs[1..];
    }
  }

  /** Otherwise one row per over-provisioned recommendation, in order. */
  lemma {:induction false} CoreRightsizingLoopRows(recs: seq<InstanceRecommendation>)
    ensures CoreRightsizingLoop(recs).Returned? ==>
              var rows := CoreRightsizingLoop(recs).value;
              var over := OverProvisionedOf(recs);
              |rows| == |over| && forall i :: 0 <= i < |rows| ==> CoreRowFor(rows[i], over[i])
  {
    if recs != [] {
      CoreRightsizingLoopRows(recs[1..]);
      var rest := CoreRightsizingLoop(recs[1..]);
      if CoreRightsizingLoop(recs).Returned? && IsOverProvisioned(recs[0]) {
        var over := OverProvisionedOf(recs);
        var tail := OverProvisionedOf(recs[1..]);
        assert over == [recs[0]] + tail;
        var rows := CoreRightsizingLoop(recs).value;
        assert rows == CoreRightsizingStep(recs[0]).rows + rest.value;
        forall i | 0 <= i < |rows| ensures CoreRowFor(rows[i], over[i]) {
          if i > 0 {
            assert rows[i] == rest.value[i - 1];
            assert over[i] == tail[i - 1];
          }
        }
      }
    }
  }

  /** Any failure, the listing's or a recommendation's, gives the error
      dictionary rather than a list. */
  lemma CoreRightsizingFails(response: ApiResult<seq<InstanceRecommendation>>)
    ensures CoreEc2RightsizingRecommendations(response).ErrorDict? <==>
              response.Fail? ||
              exists rec :: rec in response.value && IsOverProvisioned(rec) && rec.recommendationOptions == []
  {
    if response.Ok? {
      CoreRightsizingLoopRaised(response.value);
    }
  }
}
