/** The security orchestrator (src/services/orchestrator.ts): one request runs
    through policy evaluation, a deny short-circuit, optional shield filtering,
    edge-agent enforcement, an enforcement short-circuit and residual violation
    accounting, with at most one incident raised on the way.

    `Pipeline` is the specification: it gives both the result and the log of
    adapter calls made, in order. `SecurityOrchestrator.Process` is the
    step-by-step procedure, proved to produce exactly that result and log. */
module Orchestrator {
  import opened Wrappers
  import opened SecurityTypes
  import ShieldAdapter
  import EdgeAgentAdapter
  import PolicyAdapter
  import IncidentAdapter

  /** The adapters an orchestrator is built with. */
  datatype OrchestratorConfig = OrchestratorConfig(
    shield: ShieldAdapter.Shield,
    edgeAgent: EdgeAgentAdapter.EdgeAgent,
    incident: IncidentAdapter.IncidentManager,
    policy: PolicyAdapter.PolicyEngine)

  /** One call from the orchestrator into an adapter, with its arguments. */
  datatype AdapterCall =
    | EvaluateCall(request: SecurityRequest)
    | FilterCall(content: string, mode: FilterMode)
    | EnforceCall(request: SecurityRequest, decision: PolicyDecision)
    | EmitCall(signal: IncidentSignal)
  {
    function Adapter(): AdapterName {
      match this
      case EvaluateCall(_) => PolicyName
      case FilterCall(_, _) => ShieldName
      case EnforceCall(_, _) => EdgeAgentName
      case EmitCall(_) => IncidentName
    }
  }

  /** What one `process` call produces (the result, or the failure it
      propagates) and the adapter calls it made, in order. */
  datatype Run = Run(result: Result<SecurityResult, SecurityError>, calls: seq<AdapterCall>)

  /** The `source` of every signal this orchestrator raises. */
  const ServiceName := "llm-security-core"

  // ---------------------------------------------------------------------------
  // Decision aggregation: pure functions over the decision sequence.
  // ---------------------------------------------------------------------------

  /** The position of the first decision whose action is in `wanted`
      (`decisions.find(...)`). */
  function FirstMatch(decisions: seq<PolicyDecision>, wanted: set<Action>): (k: Option<nat>)
    ensures k.Some? ==>
      k.value < |decisions| && decisions[k.value].action in wanted &&
      forall j :: 0 <= j < k.value ==> decisions[j].action !in wanted
    ensures k.None? ==> forall j :: 0 <= j < |decisions| ==> decisions[j].action !in wanted
  {
    if decisions == [] then None
    else if decisions[0].action in wanted then Some(0)
    else match FirstMatch(decisions[1..], wanted)
      case None => None
      case Some(k) => Some(k + 1)
  }

  /** The shield mode for a request type: runtime requests are filtered as prompts. */
  function FilterModeFor(t: RequestType): FilterMode {
    if t == Output then OutputMode else PromptMode
  }

  /** Whether the shield runs: some decision asks for filtering or redaction,
      or the request is a prompt or an output. */
  predicate NeedsFiltering(decisions: seq<PolicyDecision>, t: RequestType) {
    FirstMatch(decisions, {Filter, Redact}).Some? || t == Prompt || t == Output
  }

  /** The decision enforcement acts on: the first one, or the default allow. */
  function PrimaryDecision(decisions: seq<PolicyDecision>): PolicyDecision {
    if |decisions| > 0 then decisions[0] else DefaultAllow
  }

  /** The decisions that are not `allow`, in their original order. */
  function NonAllow(decisions: seq<PolicyDecision>): (flagged: seq<PolicyDecision>)
    ensures |flagged| <= |decisions|
    ensures forall i :: 0 <= i < |flagged| ==> flagged[i] in decisions && flagged[i].action != Allow
  {
    if decisions == [] then []
    else (if decisions[0].action == Allow then [] else [decisions[0]]) + NonAllow(decisions[1..])
  }

  /** The residual violations: one `low` entry per non-allow decision. */
  function ResidualViolations(decisions: seq<PolicyDecision>): (violations: seq<ViolationEntry>)
    ensures |violations| == |NonAllow(decisions)|
    ensures forall i :: 0 <= i < |violations| ==>
      violations[i].severity == Low && violations[i].policy == NonAllow(decisions)[i].policyId
  {
    var flagged := NonAllow(decisions);
    seq(|flagged|, i requires 0 <= i < |flagged| => ViolationEntry(flagged[i].policyId, Low))
  }

  // ---------------------------------------------------------------------------
  // Records the pipeline builds.
  // ---------------------------------------------------------------------------

  /** The incident signal for a violation of `policy` by `request`. */
  function ViolationSignal(request: SecurityRequest, policy: string, severity: Severity): IncidentSignal {
    IncidentSignal(Violation, severity, ServiceName,
      map["requestId" := JString(request.id),
          "policy" := JString(policy),
          "requestType" := JString(RequestTypeName(request.requestType))])
  }

  /** The result of a rejected request. */
  function Rejected(request: SecurityRequest, policy: string, severity: Severity): SecurityResult {
    SecurityResult(request.id, false, None, None, Some([ViolationEntry(policy, severity)]), None)
  }

  /** The result of an accepted request. */
  function Approved(request: SecurityRequest, shielded: ShieldAdapter.FilterOutput,
                    enforcement: EdgeAgentAdapter.Enforcement, violations: seq<ViolationEntry>,
                    incidentId: Option<string>): SecurityResult
  {
    SecurityResult(request.id, true, Some(enforcement.modifications.GetOr(shielded.filtered)),
      Some(shielded.redactions), if |violations| > 0 then Some(violations) else None, incidentId)
  }

  // ---------------------------------------------------------------------------
  // Views of the call log.
  // ---------------------------------------------------------------------------

  /** The adapters called, in order. */
  function Adapters(calls: seq<AdapterCall>): (names: seq<AdapterName>)
    ensures |names| == |calls|
    ensures forall i :: 0 <= i < |calls| ==> names[i] == calls[i].Adapter()
  {
    seq(|calls|, i requires 0 <= i < |calls| => calls[i].Adapter())
  }

  /** The incident signals emitted, in order. */
  function Emits(calls: seq<AdapterCall>): (signals: seq<IncidentSignal>)
    ensures |signals| <= |calls|
    ensures forall s :: s in signals <==> EmitCall(s) in calls
  {
    if calls == [] then []
    else
      var last := calls[|calls| - 1];
      assert calls == calls[..|calls| - 1] + [last];
      Emits(calls[..|calls| - 1]) + (if last.EmitCall? then [last.signal] else [])
  }

  // ---------------------------------------------------------------------------
  // The pipeline, stage by stage.
  // ---------------------------------------------------------------------------

  /** `process(request)`, with `now` the clock reading a simulated incident
      id is made from. */
  function Pipeline(adapters: OrchestratorConfig, request: SecurityRequest, now: nat): Run {
    var log := [EvaluateCall(request)];
    match PolicyAdapter.Evaluate(adapters.policy, request)
    case Failure(e) => Run(Failure(e), log)
    case Success(decisions) =>
      match FirstMatch(decisions, {Deny})
      case Some(k) => Reject(adapters, request, decisions[k].policyId, High, now, log)
      case None => Filtering(adapters, request, decisions, now, log)
  }

  /** Raise an incident for `policy` and reject the request. */
  function Reject(adapters: OrchestratorConfig, request: SecurityRequest, policy: string,
                  severity: Severity, now: nat, log: seq<AdapterCall>): Run
  {
    var signal := ViolationSignal(request, policy, severity);
    var emitted := IncidentAdapter.Emit(adapters.incident, signal, now);
    Run(if emitted.Failure? then Failure(emitted.error) else Success(Rejected(request, policy, severity)),
        log + [EmitCall(signal)])
  }

  /** The content and redactions after the filtering step: the shield's
      answer when it runs, the original content and no redactions otherwise. */
  function ShieldStep(adapters: OrchestratorConfig, request: SecurityRequest,
                      decisions: seq<PolicyDecision>): Result<ShieldAdapter.FilterOutput, SecurityError>
  {
    if NeedsFiltering(decisions, request.requestType)
    then ShieldAdapter.Filter(adapters.shield, request.content, FilterModeFor(request.requestType))
    else Success(ShieldAdapter.FilterOutput(request.content, []))
  }

  function Filtering(adapters: OrchestratorConfig, request: SecurityRequest,
                     decisions: seq<PolicyDecision>, now: nat, log: seq<AdapterCall>): Run
  {
    var log' := log + if NeedsFiltering(decisions, request.requestType)
                      then [FilterCall(request.content, FilterModeFor(request.requestType))]
                      else [];
    match ShieldStep(adapters, request, decisions)
    case Failure(e) => Run(Failure(e), log')
    case Success(shielded) => Enforcing(adapters, request, decisions, shielded, now, log')
  }

  function Enforcing(adapters: OrchestratorConfig, request: SecurityRequest, decisions: seq<PolicyDecision>,
                     shielded: ShieldAdapter.FilterOutput, now: nat, log: seq<AdapterCall>): Run
  {
    var primary := PrimaryDecision(decisions);
    var forwarded := request.(content := shielded.filtered);
    var log' := log + [EnforceCall(forwarded, primary)];
    match EdgeAgentAdapter.Enforce(adapters.edgeAgent, forwarded, primary)
    case Failure(e) => Run(Failure(e), log')
    case Success(enforcement) =>
      if !enforcement.enforced then Reject(adapters, request, primary.policyId, Medium, now, log')
      else Accounting(adapters, request, decisions, shielded, enforcement, now, log')
  }

  function Accounting(adapters: OrchestratorConfig, request: SecurityRequest, decisions: seq<PolicyDecision>,
                      shielded: ShieldAdapter.FilterOutput, enforcement: EdgeAgentAdapter.Enforcement,
                      now: nat, log: seq<AdapterCall>): Run
  {
    var violations := ResidualViolations(decisions);
    if |violations| == 0 then Run(Success(Approved(request, shielded, enforcement, violations, None)), log)
    else
      var signal := ViolationSignal(request, violations[0].policy, Low);
      match IncidentAdapter.Emit(adapters.incident, signal, now)
      case Failure(e) => Run(Failure(e), log + [EmitCall(signal)])
      case Success(incidentId) =>
        Run(Success(Approved(request, shielded, enforcement, violations, incidentId)), log + [EmitCall(signal)])
  }

  /** `SecurityOrchestrator`: holds its adapters and processes requests. */
  class SecurityOrchestrator {
    const adapters: OrchestratorConfig

    constructor (adapters: OrchestratorConfig)
      ensures this.adapters == adapters
    {
      this.adapters := adapters;
    }

    /** `process(request)`: the result (or the adapter failure it propagates)
        and, as ghost output, the adapter calls made. */
    method Process(request: SecurityRequest, now: nat)
      returns (result: Result<SecurityResult, SecurityError>, ghost calls: seq<AdapterCall>)
      ensures result == Pipeline(adapters, request, now).result
      ensures calls == Pipeline(adapters, request, now).calls
    {
      // 1. Evaluate policies.
      calls := [EvaluateCall(request)];
      var evaluated := PolicyAdapter.Evaluate(adapters.policy, request);
      if evaluated.Failure? {
        return Failure(evaluated.error), calls;
      }
      var decisions := evaluated.value;

      // 2. The first deny wins.
      var denyAt := FirstMatch(decisions, {Deny});
      if denyAt.Some? {
        var policy := decisions[denyAt.value].policyId;
        var emitted, call := EmitViolation(request, policy, High, now);
        calls := calls + [call];
        if emitted.Failure? {
          return Failure(emitted.error), calls;
        }
        return Success(SecurityResult(request.id, false, None, None, Some([ViolationEntry(policy, High)]), None)), calls;
      }

      // 3. Filtering and redaction.
      var filterAt := FirstMatch(decisions, {Filter, Redact});
      var filtered := request.content;
      var redactions: seq<Redaction> := [];
      if filterAt.Some? || request.requestType == Prompt || request.requestType == Output {
        var mode := FilterModeFor(request.requestType);
        calls := calls + [FilterCall(request.content, mode)];
        var shieldResult := ShieldAdapter.Filter(adapters.shield, request.content, mode);
        if shieldResult.Failure? {
          return Failure(shieldResult.error), calls;
        }
        filtered := shieldResult.value.filtered;
        redactions := shieldResult.value.redactions;
      }

      // 4. Enforcement of the primary decision on the filtered content.
      var primary := PrimaryDecision(decisions);
      var forwarded := request.(content := filtered);
      calls := calls + [EnforceCall(forwarded, primary)];
      var enforcement := EdgeAgentAdapter.Enforce(adapters.edgeAgent, forwarded, primary);
      if enforcement.Failure? {
        return Failure(enforcement.error), calls;
      }
      if !enforcement.value.enforced {
        var emitted, call := EmitViolation(request, primary.policyId, Medium, now);
        calls := calls + [call];
        if emitted.Failure? {
          return Failure(emitted.error), calls;
        }
        return Success(SecurityResult(request.id, false, None, None, Some([ViolationEntry(primary.policyId, Medium)]), None)), calls;
      }

      // 5. Residual violations, with at most one incident.
      var violations := ResidualViolations(decisions);
      var incidentId: Option<string> := None;
      if |violations| > 0 {
        var emitted, call := EmitViolation(request, violations[0].policy, Low, now);
        calls := calls + [call];
        if emitted.Failure? {
          return Failure(emitted.error), calls;
        }
        incidentId := emitted.value;
      }

      result := Success(SecurityResult(
        request.id, true, Some(enforcement.value.modifications.GetOr(filtered)), Some(redactions),
        if |violations| > 0 then Some(violations) else None, incidentId));
    }

    /** `emitViolation`: raise a violation incident for `policy`. */
    method EmitViolation(request: SecurityRequest, policy: string, severity: Severity, now: nat)
      returns (emitted: Result<Option<string>, SecurityError>, ghost call: AdapterCall)
      ensures call.EmitCall? && call.signal.signalType == Violation && call.signal.severity == severity
      ensures call.signal.source == ServiceName
      ensures call.signal.details == map["requestId" := JString(request.id), "policy" := JString(policy),
                                         "requestType" := JString(RequestTypeName(request.requestType))]
      ensures emitted == IncidentAdapter.Emit(adapters.incident, call.signal, now)
      ensures adapters.incident.IncidentSimulator? ==>
        emitted == Success(Some(IncidentAdapter.SimulatedIncidentId(now)))
      ensures emitted.Failure? ==> emitted.error.AdapterError? && emitted.error.adapter == IncidentName
    {
      var signal := ViolationSignal(request, policy, severity);
      call := EmitCall(signal);
      emitted := IncidentAdapter.Emit(adapters.incident, signal, now);
    }
  }
}
