# security-core in Dafny

A model of the coordination core of LLM-Security-Core: the
`SecurityOrchestrator`, which runs each security request through four
integrated systems, together with their adapters and the request and event
handlers in front of it.

- **Policy engine adapter** (`PolicyAdapter`). Evaluates a request into a
  sequence of policy decisions (`allow`, `deny`, `filter`, `redact`).
- **Shield adapter** (`ShieldAdapter`). Filters content in prompt or output
  mode and reports redactions.
- **Edge agent adapter** (`EdgeAgentAdapter`). Enforces the primary
  decision on the request and may rewrite its content.
- **Incident manager adapter** (`IncidentAdapter`). Receives violation
  signals and returns an incident id.

Each adapter is either the built-in simulator or bound to a backend. A
backend is a function from the adapter's query to a raw reply, whose fields
are optional, or to an error message. A backend error becomes
`AdapterError(adapter, message)`, and that error ends the run.

`Orchestrator.Pipeline` is the specification of `process`. It returns the
result, or the failure that stops it, together with the log of adapter calls
made, in order. The pipeline has these stages:

1. Policy evaluation.
2. A short circuit on the first `deny`, with one `high` violation and one
   incident.
3. Filtering by the shield. It runs when a decision asks for filtering or
   redaction, or when the request is a prompt or an output.
4. Enforcement of the first decision, or of the default allow, on the
   filtered request.
5. On a non-enforcement, rejection with one `medium` violation and one
   incident.
6. Otherwise acceptance, with one `low` violation per non-allow decision and
   at most one `low` incident.

The imperative method `Orchestrator.SecurityOrchestrator.Process` follows
the TypeScript method's early returns and is proved equal to `Pipeline`. The
lemmas in `OrchestratorProperties` state what `process` promises. The clock
used for simulated incident ids (`Date.now()`) is the parameter `now`.

`SecurityHandlers.SecurityHandler` models the module-level orchestrator
slot and the two handlers that route to it.

## Model

| member | source | states |
|---|---|---|
| ShieldAdapter.Filter | src/adapters/shield.ts:6-16 | Simulator: the content comes back unchanged with no redactions, whatever the mode. Backend: it is queried with the content and mode; missing `filtered`/`redactions` fall back to the content and to no redactions; a backend error becomes a shield adapter error |
| ShieldAdapter.SimulatorIgnoresMode | src/adapters/shield.ts:7-9 | The simulated shield gives the same pass-through result in both modes |
| EdgeAgentAdapter.Enforce | src/adapters/edge-agent.ts:6-16 | Simulator: enforced exactly when the decision is not a deny, with no modifications. Backend: enforced unless the reply says `enforced: false`, and modifications are passed through; a backend error becomes an edge-agent error |
| EdgeAgentAdapter.SimulatorEnforcesAllow | src/tests/orchestrator.test.ts:67-72 | The simulated edge agent enforces an allow decision |
| PolicyAdapter.Evaluate | src/adapters/policy.ts:6-13 | Simulator: exactly one decision, `default`/`allow`. Backend: its decision sequence is returned as is; a backend error becomes a policy error |
| PolicyAdapter.SimulatorIgnoresRequest | src/tests/orchestrator.test.ts:80-85 | The simulated policy engine gives the same single default allow for every request |
| IncidentAdapter.Decimal | src/adapters/incident.ts:9 | The decimal rendering of the clock reading is non-empty, all digits and canonical: `0` for zero, and no leading zero otherwise |
| IncidentAdapter.DecimalRoundTrip | src/adapters/incident.ts:9 | Reading the decimal rendering back gives the clock reading |
| IncidentAdapter.SimulatedIncidentId | src/adapters/incident.ts:9 | A simulated id is `sim-incident-` followed by digits only |
| IncidentAdapter.SimulatedIdEncodesClock | src/adapters/incident.ts:9 | The digits after the prefix of a simulated id are the clock reading it was made at |
| IncidentAdapter.SimulatedIdsDistinct | src/adapters/incident.ts:9 | Simulated ids made at different clock readings differ |
| IncidentAdapter.Emit | src/adapters/incident.ts:6-13 | Simulator: the id is `sim-incident-` plus the clock reading. Backend: it gets the signal, and its reply's `incidentId` (possibly absent) is returned; a backend error becomes an incident adapter error |
| SecurityTypes.RequestTypeName | src/lib.ts:11 | Each request type has its own wire name: `prompt` exactly for prompts, `output` exactly for outputs, `runtime` exactly for runtime requests |
| Orchestrator.FirstMatch | src/services/orchestrator.ts:31 | `find`: the index of the first decision whose action is wanted, with none wanted before it; none when no decision qualifies |
| Orchestrator.NonAllow | src/services/orchestrator.ts:61-62 | The non-allow decisions: no longer than the input, and each kept one is an input decision that is not an allow |
| Orchestrator.ResidualViolations | src/services/orchestrator.ts:61-63 | One violation per non-allow decision, in order: severity `low`, policy taken from the decision |
| Orchestrator.SecurityOrchestrator.Process | src/services/orchestrator.ts:26-79 | The imperative `process`, with its early returns, produces exactly the result and the call log of `Pipeline` |
| Orchestrator.SecurityOrchestrator.EmitViolation | src/services/orchestrator.ts:81-89 | It emits one `violation` signal with source `llm-security-core` and details `requestId`, `policy` and `requestType`, and returns what the incident adapter returns: the clock-made id with the simulator, an incident adapter error on failure |
| OrchestratorProperties.NonAllowOfSingle | src/services/orchestrator.ts:62 | The filter keeps a single decision exactly when it is not an allow |
| OrchestratorProperties.NonAllowDistributes | src/services/orchestrator.ts:62 | The filter distributes over concatenation, so it keeps the input order |
| OrchestratorProperties.NonAllowKeepsEveryNonAllow | src/services/orchestrator.ts:62 | Every decision that is not an allow is kept |
| OrchestratorProperties.FirstResidualIsFirstNonAllow | src/services/orchestrator.ts:61-67 | There are residual violations exactly when some decision is deny, filter or redact, and the first of them comes from the first such decision |
| OrchestratorProperties.DenyShortCircuits | src/services/orchestrator.ts:31-35 | The first deny, wherever it stands, rejects with exactly one `high` violation for its policy. Exactly one high incident is emitted, and the shield and edge agent are not called. The result is that rejection when the emission succeeds, and exactly the incident adapter's error when it fails |
| OrchestratorProperties.DenyPositionDoesNotMatter | src/services/orchestrator.ts:31-35 | A deny before or after an allow gives the same rejection, while the primary decision is the first element |
| OrchestratorProperties.ShieldRunsWhenNeeded | src/services/orchestrator.ts:38-46 | Past the deny check, the shield is called exactly when a decision filters or redacts or the request is a prompt or output. It gets the original content, in prompt mode for runtime requests. Otherwise the edge agent is the next call |
| OrchestratorProperties.UnfilteredRequestKeepsContent | src/services/orchestrator.ts:39-40 | Without filtering, an accepted runtime request keeps its content (unless the edge agent rewrote it) and has empty redactions |
| OrchestratorProperties.EnforcementSeesFilteredRequest | src/services/orchestrator.ts:49-53 | The edge agent is called with the request whose content alone is replaced by the filtered text, and with the first decision or the default allow |
| OrchestratorProperties.EnforcementRejectionShortCircuits | src/services/orchestrator.ts:55-58 | A non-enforcement rejects with one `medium` violation against the primary decision's policy. The filtering is dropped and the last call is the one medium incident. The result is that rejection when the emission succeeds, and exactly the incident adapter's error when it fails |
| OrchestratorProperties.EnforcedRequestIsAllowed | src/services/orchestrator.ts:60-78 | Enforcement gives an allowed result. Its content is the edge agent's modification or else the filtered text, and its redactions are the shield's. Violations are the non-allow decisions in order, all `low`, or absent when there are none. One low incident for the first is emitted exactly when there are violations, and its id is the result's. A failing low emission fails the run with exactly the incident adapter's error |
| OrchestratorProperties.PolicyFailureStops | src/services/orchestrator.ts:28 | A failing policy engine fails the run with exactly its error, and no other adapter is called |
| OrchestratorProperties.ShieldFailureStops | src/services/orchestrator.ts:42-46 | When the shield runs and fails, the run fails with exactly its error, and neither the edge agent nor the incident manager is called |
| OrchestratorProperties.EnforceFailureStops | src/services/orchestrator.ts:50-53 | A failing edge agent fails the run with exactly its error, the enforcement call is the last call, and no incident is emitted |
| OrchestratorProperties.AccountingOutcome | src/services/orchestrator.ts:60-78 | The accounting stage alone: the same outcome as above, from the decisions and the enforcement |
| OrchestratorProperties.ResultShape | src/services/orchestrator.ts:26-79 | Every result echoes the request id. A rejection has exactly one high or medium violation and no content, redactions or incident id. An acceptance has content and redactions, its violations are non-empty and all low when present, and it has an incident id only with violations |
| OrchestratorProperties.RaisedIncident | src/services/orchestrator.ts:31-69 | A run emits no signal or one violation signal for the request, and its policy and severity agree with the violations reported |
| OrchestratorProperties.AtMostOneIncident | src/services/orchestrator.ts:81-89 | At most one signal per call. Each is a `violation` signal from `llm-security-core` naming the request id, its type and a policy, and it matches the first reported violation |
| OrchestratorProperties.CallOrder | src/services/orchestrator.ts:26-79 | The policy engine is called first, on the request as given. A successful run calls the adapters in one of five fixed orders: policy then incident; or policy, maybe shield, edge agent, maybe incident |
| OrchestratorProperties.FailureComesFromLastCall | src/services/orchestrator.ts:26-79 | A failed run is an adapter error from the last adapter called, so nothing runs after the failing adapter |
| OrchestratorProperties.EnforcingCalls | src/services/orchestrator.ts:50-69 | From enforcement on, the log gains the edge-agent call and at most one incident call, and a failure comes from the last of them |
| OrchestratorProperties.EnforcingLog | src/services/orchestrator.ts:50-69 | Enforcement appends the edge-agent call and then only incident emissions |
| OrchestratorProperties.PastDeny | src/services/orchestrator.ts:31-35 | With no deny, `process` proceeds to the filtering stage |
| OrchestratorProperties.PastShield | src/services/orchestrator.ts:38-46 | Once the shield step succeeds, `process` proceeds to enforcement |
| OrchestratorProperties.NoEmitsBeforeAccounting | src/services/orchestrator.ts:28-53 | No incident is emitted before the enforcement outcome is known |
| OrchestratorProperties.PrimaryIsNotDeny | src/services/orchestrator.ts:49 | Past the deny check, the primary decision is never a deny |
| OrchestratorProperties.SimulatedEdgeAgentNeverRejects | src/adapters/edge-agent.ts:9 | With the simulated edge agent there is never a medium incident, and every rejection is a high one |
| OrchestratorProperties.SimulatedPolicyNeverRaises | src/adapters/policy.ts:9 | With the simulated policy engine and an edge agent that enforces the default allow, no incident is raised, and a result is allowed with no violations and no incident id |
| OrchestratorProperties.AllSimulatorsAllow | src/tests/orchestrator.test.ts:23-28 | With every adapter simulated, every request is allowed unchanged, with no redactions, violations or incident. The shield is skipped only for runtime requests |
| OrchestratorProperties.SimulatedIncidentIdWithViolations | src/adapters/incident.ts:9 | With the simulated incident manager, an allowed result has an incident id exactly when it has violations, and that id is made from the clock |
| OrchestratorProperties.CleanTextScenario | src/services/orchestrator.ts:71-78 | A filter decision plus an edge agent that rewrites to `clean text` gives the rewritten content, one low violation for the filtering policy and the simulated incident id |
| SecurityHandlers.SecurityHandler.InitializeOrchestrator | src/handlers/security.ts:7-9 | It installs a new orchestrator over the given adapters, replacing any earlier one |
| SecurityHandlers.SecurityHandler.HandleSecurityRequest | src/handlers/security.ts:11-16 | Before initialisation it fails with the not-initialised error and calls nothing; otherwise it is exactly the installed orchestrator's `process` |
| SecurityHandlers.SecurityHandler.HandleSecurityEvent | src/handlers/security.ts:18-35 | Before initialisation it fails. A `security.request` event runs `process` once on its payload, discards the result and propagates any failure. Any other event, the config reload included, does nothing |

## Left out

- The configuration adapter (`src/adapters/config.ts`) and the `config` field of the orchestrator configuration: `process` never reads them.
- Asynchrony. Each `await` is modelled as a synchronous call, in the order the code issues them. Concurrent callers sharing one orchestrator are not modelled.
- The clock. `Date.now()` is the parameter `now`, a natural number of milliseconds, and the same reading serves every emission in one run.
- Bound backends are total functions. A backend answers the same query the same way every time, and any state or I/O inside it is not modelled. A thrown exception is an error message, and the text of the exception is not modelled.
- Values from untyped backends are well typed in the model. A backend that returns a decision sequence, redactions or an `enforced` flag of the wrong shape is not modelled: the TypeScript casts these without checking. Absent reply fields are `None`.
- `request.context` and the `metadata` are carried through without interpretation. JavaScript numbers in them are integers here.
- SecurityHandlers.SecurityHandler.HandleSecurityEvent: the payload's type is `SecurityRequest`. The unchecked cast `event.payload as SecurityRequest` on an arbitrary value is not modelled.
- The handlers' error text. Uninitialised use is the single error `UninitializedError`, not the thrown message.
- The CLI, the HTTP server and the SDK (`src/cli.ts`, `src/server.ts`, `src/sdk.ts`): they only call the handlers and the orchestrator.
