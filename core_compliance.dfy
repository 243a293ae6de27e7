/** check_mfa of core/compliance.py: the older variant that lists the users
    itself and has no exception handler, so any failed call ends the check. */
module CoreCompliance {
  import opened Aws
  import opened Resources

  /** One user: named when the device list is empty; a failed lookup is
      raised whatever its kind. */
  function MfaStep(u: User, devices: string -> ApiResult<seq<MfaDevice>>): Step<string> {
    match devices(u.userName)
    case Ok(ds) => Emit(if ds == [] then [u.userName] else [])
    case Fail(e) => Stop(e)
  }

  function MfaLoop(users: seq<User>, devices: string -> ApiResult<seq<MfaDevice>>): Run<seq<string>> {
    if users == [] then Returned([])
    else Then(MfaStep(users[0], devices), MfaLoop(users[1..], devices))
  }

  /** Reference definition of check_mfa; the user listing is taken first. */
  function UsersWithoutMfa(listing: ApiResult<seq<User>>, devices: string -> ApiResult<seq<MfaDevice>>)
    : Run<seq<string>>
  {
    match listing
    case Fail(e) => Raised(e)
    case Ok(users) => MfaLoop(users, devices)
  }

  method CheckMfa(listing: ApiResult<seq<User>>, devices: string -> ApiResult<seq<MfaDevice>>)
    returns (r: Run<seq<string>>)
    ensures r == UsersWithoutMfa(listing, devices)
  {
    if listing.Fail? {
      return Raised(listing.error);
    }
    var users := listing.value;
    var nonCompliant: seq<string> := [];
    var i := 0;
    assert users[0..] == users;
    PrependNothing(MfaLoop(users, devices));
    while i < |users|
      invariant 0 <= i <= |users|
      invariant MfaLoop(users, devices) == Prepend(nonCompliant, MfaLoop(users[i..], devices))
    {
      assert users[i..][1..] == users[i + 1..];
      assert MfaLoop(users[i..], devices) == Then(MfaStep(users[i], devices), MfaLoop(users[i + 1..], devices));
      if MfaStep(users[i], devices).Emit? {
        PrependTwice(nonCompliant, MfaStep(users[i], devices).rows, MfaLoop(users[i + 1..], devices));
      }
      var mfa := devices(users[i].userName);
      if mfa.Fail? {
        return Raised(mfa.error);
      }
      if mfa.value == [] {
        nonCompliant := nonCompliant + [users[i].userName];
      }
      i := i + 1;
    }
    assert users[i..] == [];
    assert nonCompliant + [] == nonCompliant;
    return Returned(nonCompliant);
  }

  /** The check raises exactly when the listing or some user's device lookup
      fails; otherwise it names exactly the users without a device, in the
      order they were listed, and so never more names than users. */
  lemma {:induction false} MfaLoopMeaning(users: seq<User>, devices: string -> ApiResult<seq<MfaDevice>>)
    ensures MfaLoop(users, devices).Raised? <==> exists u :: u in users && devices(u.userName).Fail?
    ensures MfaLoop(users, devices).Returned? ==>
              forall n :: n in MfaLoop(users, devices).value <==>
                            exists u :: u in users && u.userName == n && devices(n) == Ok([])
    ensures MfaLoop(users, devices).Returned? ==> IsSubsequence(MfaLoop(users, devices).value, UserNames(users))
  {
    if users != [] {
      MfaLoopMeaning(users[1..], devices);
      assert users == [users[0]] + users[1..];
      assert UserNames(users) == [users[0].userName] + UserNames(users[1..]);
      var rest := MfaLoop(users[1..], devices);
      if rest.Returned? && MfaStep(users[0], devices).Emit? {
        if MfaStep(users[0], devices).rows == [] {
          assert MfaLoop(users, devices).value == rest.value;
          SubsequenceOfCons(rest.value, UserNames(users[1..]), users[0].userName);
        } else {
          assert ([users[0].userName] + rest.value)[1..] == rest.value;
        }
      }
    }
  }

  /** check_mfa as a whole. */
  lemma UsersWithoutMfaMeaning(listing: ApiResult<seq<User>>, devices: string -> ApiResult<seq<MfaDevice>>)
    ensures UsersWithoutMfa(listing, devices).Raised? <==>
              listing.Fail? || exists u :: u in listing.value && devices(u.userName).Fail?
    ensures UsersWithoutMfa(listing, devices).Returned? ==>
              var names := UsersWithoutMfa(listing, devices).value;
              IsSubsequence(names, UserNames(listing.value)) && |names| <= |listing.value| &&
              forall n :: n in names <==> exists u :: u in listing.value && u.userName == n && devices(n) == Ok([])
  {
    if listing.Ok? {
      MfaLoopMeaning(listing.value, devices);
      if MfaLoop(listing.value, devices).Returned? {
        SubsequenceLength(MfaLoop(listing.value, devices).value, UserNames(listing.value));
      }
    }
  }
}
