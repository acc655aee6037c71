/** Claim-based authorization (`CustomAuthorizationHandler`): a requirement names a claim
    type and value, and the handler marks it succeeded on the authorization context when
    the user holds that claim, and otherwise fails the context with a reason naming it. */
module CustomAuthorization {
  import opened Claims

  const HandlerName := "CustomAuthorizationHandler"

  /** `AuthorizationRequirement`: a requirement object with its claim type and value. */
  class AuthorizationRequirement {
    const claimType: string
    const claimValue: string

    constructor (claimType: string, claimValue: string)
      ensures this.claimType == claimType && this.claimValue == claimValue
    {
      this.claimType := claimType;
      this.claimValue := claimValue;
    }
  }

  /** `AuthorizationFailureReason`: the handler that failed and why. */
  datatype FailureReason = FailureReason(handler: string, message: string)

  /** "User does not have {type} claim with value {value}." */
  function FailureMessage(claimType: string, claimValue: string): string {
    "User does not have " + claimType + " claim with value " + claimValue + "."
  }

  /** Both parts of the requirement can be found in the message at fixed offsets. */
  lemma FailureMessageNames(claimType: string, claimValue: string)
    ensures var m := FailureMessage(claimType, claimValue);
      var k := |"User does not have "|;
      && |m| == k + |claimType| + |" claim with value "| + |claimValue| + 1
      && m[k..k + |claimType|] == claimType
      && m[|m| - |claimValue| - 1..|m| - 1] == claimValue
      && m[|m| - 1] == '.'
  {
    var m := FailureMessage(claimType, claimValue);
    var k := |"User does not have "|;
    assert m == "User does not have " + claimType + (" claim with value " + claimValue + ".");
    assert m[k..k + |claimType|] == claimType;
    assert m == ("User does not have " + claimType + " claim with value ") + claimValue + ".";
  }

  /** `AuthorizationHandlerContext`: the user being authorized, the requirements not yet
      met, whether `Succeed` and `Fail` have been called, and the failure reasons. */
  class AuthorizationContext {
    const user: seq<Claim>
    var pending: set<AuthorizationRequirement>
    var succeedCalled: bool
    var failCalled: bool
    var reasons: seq<FailureReason>

    constructor (user: seq<Claim>, requirements: set<AuthorizationRequirement>)
      ensures this.user == user && pending == requirements
      ensures !succeedCalled && !failCalled && reasons == []
    {
      this.user := user;
      pending := requirements;
      succeedCalled := false;
      failCalled := false;
      reasons := [];
    }

    /** `HasSucceeded`: no handler failed, one succeeded, and no requirement is pending. */
    predicate HasSucceeded()
      reads this
    {
      !failCalled && succeedCalled && pending == {}
    }

    /** `Succeed(requirement)`: the requirement is met. */
    method Succeed(requirement: AuthorizationRequirement)
      modifies this
      ensures pending == old(pending) - {requirement} && succeedCalled
      ensures failCalled == old(failCalled) && reasons == old(reasons)
    {
      pending := pending - {requirement};
      succeedCalled := true;
    }

    /** `Fail(reason)`: authorization fails whatever else succeeds. */
    method Fail(reason: FailureReason)
      modifies this
      ensures failCalled && reasons == old(reasons) + [reason]
      ensures pending == old(pending) && succeedCalled == old(succeedCalled)
    {
      failCalled := true;
      reasons := reasons + [reason];
    }
  }

  /** `HandleRequirementAsync`: exactly one of `Succeed` and `Fail` is called, `Succeed`
      when the user holds the claim, `Fail` with the reason naming it otherwise. */
  method HandleRequirement(context: AuthorizationContext, requirement: AuthorizationRequirement)
    modifies context
    ensures HasClaim(context.user, requirement.claimType, requirement.claimValue) ==>
      && context.pending == old(context.pending) - {requirement} && context.succeedCalled
      && context.failCalled == old(context.failCalled) && context.reasons == old(context.reasons)
    ensures !HasClaim(context.user, requirement.claimType, requirement.claimValue) ==>
      && context.failCalled
      && context.reasons == old(context.reasons) + [FailureReason(HandlerName, FailureMessage(requirement.claimType, requirement.claimValue))]
      && context.pending == old(context.pending) && context.succeedCalled == old(context.succeedCalled)
  {
    if HasClaim(context.user, requirement.claimType, requirement.claimValue) {
      context.Succeed(requirement);
    } else {
      context.Fail(FailureReason(HandlerName, FailureMessage(requirement.claimType, requirement.claimValue)));
    }
  }

  /** A policy of one requirement evaluated for a user from a fresh context: it succeeds
      exactly when the user holds the claim, and a refusal carries the one reason naming
      the requirement. */
  method Authorize(user: seq<Claim>, requirement: AuthorizationRequirement) returns (succeeded: bool, reasons: seq<FailureReason>)
    ensures succeeded <==> HasClaim(user, requirement.claimType, requirement.claimValue)
    ensures succeeded ==> reasons == []
    ensures !succeeded ==> reasons == [FailureReason(HandlerName, FailureMessage(requirement.claimType, requirement.claimValue))]
  {
    var context := new AuthorizationContext(user, {requirement});
    HandleRequirement(context, requirement);
    succeeded := context.HasSucceeded();
    reasons := context.reasons;
  }
}
