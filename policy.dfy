/** The policy adapter (src/adapters/policy.ts): policy evaluation, either
    forwarded to a policy engine or simulated as a single default allow. */
module PolicyAdapter {
  import opened Wrappers
  import opened SecurityTypes

  /** `createPolicyAdapter(policyEngine?)`: the simulator when no engine is given. */
  datatype PolicyEngine =
    | PolicySimulator
    | PolicyBound(backend: SecurityRequest -> Result<seq<PolicyDecision>, string>)

  /** `evaluate(request)` */
  function Evaluate(engine: PolicyEngine, request: SecurityRequest): (r: Result<seq<PolicyDecision>, SecurityError>)
    // The simulator answers one default allow, whatever the request.
    ensures engine.PolicySimulator? ==>
      r.Success? && |r.value| == 1 && r.value[0] == PolicyDecision("default", Allow, None)
    // The bound adapter returns the engine's decisions as they are, in the
    // engine's order, and fails exactly when the engine fails.
    ensures engine.PolicyBound? ==>
      (r.Success? <==> engine.backend(request).Success?) &&
      (r.Success? ==> r.value == engine.backend(request).value) &&
      (r.Failure? ==> r.error == AdapterError(PolicyName, engine.backend(request).error))
  {
    match engine
    case PolicySimulator => Success([DefaultAllow])
    case PolicyBound(backend) =>
      match backend(request)
      case Failure(message) => Failure(AdapterError(PolicyName, message))
      case Success(decisions) => Success(decisions)
  }

  /** The simulator's answer does not depend on the request. */
  lemma SimulatorIgnoresRequest(a: SecurityRequest, b: SecurityRequest)
    ensures Evaluate(PolicySimulator, a) == Evaluate(PolicySimulator, b)
  {
  }
}
