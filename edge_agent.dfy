/** The edge-agent adapter (src/adapters/edge-agent.ts): runtime enforcement of
    a policy decision, either forwarded to an agent backend or simulated. */
module EdgeAgentAdapter {
  import opened Wrappers
  import opened SecurityTypes

  /** What the backend's `enforce` receives. */
  datatype EnforceQuery = EnforceQuery(request: SecurityRequest, decision: PolicyDecision)

  /** What the backend answers; either field may be missing. */
  datatype EnforceReply = EnforceReply(enforced: Option<bool>, modifications: Option<string>)

  /** The adapter's answer to the orchestrator. */
  datatype Enforcement = Enforcement(enforced: bool, modifications: Option<string>)

  /** `createEdgeAgentAdapter(edgeAgent?)`: the simulator when no backend is given. */
  datatype EdgeAgent =
    | EdgeAgentSimulator
    | EdgeAgentBound(backend: EnforceQuery -> Result<EnforceReply, string>)

  /** `enforce(request, decision)` */
  function Enforce(agent: EdgeAgent, request: SecurityRequest, decision: PolicyDecision): (r: Result<Enforcement, SecurityError>)
    // The simulator never fails, enforces everything but a deny, and never
    // rewrites the content.
    ensures agent.EdgeAgentSimulator? ==>
      r.Success? && (r.value.enforced <==> decision.action != Deny) && r.value.modifications.None?
    // The bound adapter fails exactly when the backend, asked about this very
    // request and decision, fails.
    ensures agent.EdgeAgentBound? ==>
      (r.Success? <==> agent.backend(EnforceQuery(request, decision)).Success?)
    ensures agent.EdgeAgentBound? && r.Failure? ==>
      r.error == AdapterError(EdgeAgentName, agent.backend(EnforceQuery(request, decision)).error)
    // Only an explicit `enforced: false` from the backend rejects; its
    // modifications are passed through as they are.
    ensures agent.EdgeAgentBound? && r.Success? ==>
      var reply := agent.backend(EnforceQuery(request, decision)).value;
      (r.value.enforced <==> reply.enforced != Some(false)) &&
      r.value.modifications == reply.modifications
  {
    match agent
    case EdgeAgentSimulator => Success(Enforcement(decision.action != Deny, None))
    case EdgeAgentBound(backend) =>
      match backend(EnforceQuery(request, decision))
      case Failure(message) => Failure(AdapterError(EdgeAgentName, message))
      case Success(reply) => Success(Enforcement(reply.enforced.GetOr(true), reply.modifications))
  }

  /** The simulator enforces an allow decision and leaves the content alone. */
  lemma SimulatorEnforcesAllow(request: SecurityRequest, policyId: string)
    ensures Enforce(EdgeAgentSimulator, request, PolicyDecision(policyId, Allow, None))
         == Success(Enforcement(true, None))
  {
  }
}
