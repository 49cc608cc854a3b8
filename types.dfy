/** The request, decision, result and incident records shared by the
    orchestrator, its adapters and the handlers (src/lib.ts). */
module SecurityTypes {
  import opened Wrappers

  /** `SecurityRequest.type` */
  datatype RequestType = Prompt | Output | Runtime

  /** `PolicyDecision.action` */
  datatype Action = Allow | Deny | Filter | Redact

  /** Severity of a violation or an incident signal. */
  datatype Severity = Low | Medium | High | Critical

  /** `IncidentSignal.type` */
  datatype SignalType = Violation | Threshold | Anomaly

  /** The mode argument of the shield's `filter`. */
  datatype FilterMode = PromptMode | OutputMode

  /** The free-form values of `context` and of an incident's `details`. */
  datatype JsonValue =
    | JNull
    | JBool(b: bool)
    | JNumber(n: int)
    | JString(s: string)
    | JArray(items: seq<JsonValue>)
    | JObject(fields: map<string, JsonValue>)

  datatype Metadata = Metadata(userId: Option<string>, sessionId: Option<string>, timestamp: Option<int>)

  datatype SecurityRequest = SecurityRequest(
    id: string,
    requestType: RequestType,
    content: string,
    context: Option<map<string, JsonValue>>,
    metadata: Option<Metadata>)

  datatype PolicyDecision = PolicyDecision(policyId: string, action: Action, reason: Option<string>)

  /** The decision that stands in when no policy decided anything: it is both
      the policy simulator's single answer and the orchestrator's fallback
      primary decision. */
  const DefaultAllow := PolicyDecision("default", Allow, None)

  datatype Redaction = Redaction(start: int, end: int, reason: string)

  /** One entry of `SecurityResult.violations`. */
  datatype ViolationEntry = ViolationEntry(policy: string, severity: Severity)

  datatype SecurityResult = SecurityResult(
    requestId: string,
    allowed: bool,
    filtered: Option<string>,
    redactions: Option<seq<Redaction>>,
    violations: Option<seq<ViolationEntry>>,
    incidentId: Option<string>)

  datatype IncidentSignal = IncidentSignal(
    signalType: SignalType,
    severity: Severity,
    source: string,
    details: map<string, JsonValue>)

  /** The four behavioural collaborators the orchestrator calls. */
  datatype AdapterName = PolicyName | ShieldName | EdgeAgentName | IncidentName

  /** A failed adapter call (the backend's thrown error, by its message), or a
      handler used before `initializeOrchestrator`. */
  datatype SecurityError =
    | AdapterError(adapter: AdapterName, message: string)
    | UninitializedError

  /** The wire spelling of a request type. */
  function RequestTypeName(t: RequestType): (name: string)
    ensures name in {"prompt", "output", "runtime"}
    ensures (name == "prompt" <==> t == Prompt) && (name == "output" <==> t == Output) &&
            (name == "runtime" <==> t == Runtime)
  {
    match t
    case Prompt => "prompt"
    case Output => "output"
    case Runtime => "runtime"
  }
}
