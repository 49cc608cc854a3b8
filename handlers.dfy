/** The request and event handlers (src/handlers/security.ts): a holder for
    one orchestrator, installed by `initializeOrchestrator`, that gates and
    routes calls to its `process`. */
module SecurityHandlers {
  import opened Wrappers
  import opened SecurityTypes
  import opened Orchestrator

  /** An event handed to `handleSecurityEvent`. */
  datatype SecurityEvent = SecurityEvent(eventType: string, payload: SecurityRequest)

  const RequestEvent := "security.request"
  const ConfigReloadEvent := "security.config.reload"

  /** The handlers' shared state: no orchestrator until one is installed. */
  class SecurityHandler {
    var orchestrator: SecurityOrchestrator?

    constructor ()
      ensures orchestrator == null
    {
      orchestrator := null;
    }

    /** `initializeOrchestrator(config)`: install a new orchestrator, replacing
        any installed before. */
    method InitializeOrchestrator(config: OrchestratorConfig)
      modifies this
      ensures orchestrator != null && fresh(orchestrator) && orchestrator.adapters == config
    {
      orchestrator := new SecurityOrchestrator(config);
    }

    /** `handleSecurityRequest(request)`: fails when nothing is installed, and
        is otherwise exactly the installed orchestrator's `process`. */
    method HandleSecurityRequest(request: SecurityRequest, now: nat)
      returns (result: Result<SecurityResult, SecurityError>, ghost calls: seq<AdapterCall>)
      ensures orchestrator == null ==> result == Failure(UninitializedError)
      ensures orchestrator != null ==> result == Pipeline(orchestrator.adapters, request, now).result
      ensures orchestrator == null ==> calls == []
      ensures orchestrator != null ==> calls == Pipeline(orchestrator.adapters, request, now).calls
    {
      if orchestrator == null {
        return Failure(UninitializedError), [];
      }
      result, calls := orchestrator.Process(request, now);
    }

    /** `handleSecurityEvent(event)`: fails when nothing is installed; a request
        event runs the pipeline once on its payload and propagates its failure,
        discarding its result; any other event does nothing. */
    method HandleSecurityEvent(event: SecurityEvent, now: nat)
      returns (result: Result<(), SecurityError>, ghost calls: seq<AdapterCall>)
      ensures orchestrator == null ==> result == Failure(UninitializedError)
      ensures orchestrator != null && event.eventType == "security.request" ==>
        var run := Pipeline(orchestrator.adapters, event.payload, now);
        (result.Success? <==> run.result.Success?) &&
        (result.Failure? ==> result.error == run.result.error)
      ensures orchestrator != null && event.eventType != "security.request" ==> result == Success(())
      ensures orchestrator == null ==> calls == []
      ensures orchestrator != null && event.eventType == "security.request" ==>
        calls == Pipeline(orchestrator.adapters, event.payload, now).calls
      ensures orchestrator != null && event.eventType != "security.request" ==> calls == []
    {
      if orchestrator == null {
        return Failure(UninitializedError), [];
      }
      calls := [];
      if event.eventType == RequestEvent {
        var processed;
        processed, calls := orchestrator.Process(event.payload, now);
        if processed.Failure? {
          return Failure(processed.error), calls;
        }
      } else if event.eventType == ConfigReloadEvent {
        // Configuration changes are the configuration manager's business.
      } else {
        // Unknown events are ignored.
      }
      result := Success(());
    }
  }
}
