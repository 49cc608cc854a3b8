/** What the orchestrator promises, stated over `Orchestrator.Pipeline` (which
    `SecurityOrchestrator.Process` is proved to compute). */
module OrchestratorProperties {
  import opened Wrappers
  import opened SecurityTypes
  import opened Orchestrator
  import ShieldAdapter
  import EdgeAgentAdapter
  import PolicyAdapter
  import IncidentAdapter

  // ---------------------------------------------------------------------------
  // The call log
  // ---------------------------------------------------------------------------

  lemma EmitsSnoc(log: seq<AdapterCall>, c: AdapterCall)
    ensures Emits(log + [c]) == Emits(log) + if c.EmitCall? then [c.signal] else []
  {
    assert (log + [c])[..|log|] == log;
  }

  lemma EmitsOfSingle(c: AdapterCall)
    ensures Emits([c]) == if c.EmitCall? then [c.signal] else []
  {
    EmitsSnoc([], c);
  }

  /** The log once the filtering step is done. */
  function ShieldLog(request: SecurityRequest, decisions: seq<PolicyDecision>): seq<AdapterCall> {
    [EvaluateCall(request)] +
      if NeedsFiltering(decisions, request.requestType)
      then [FilterCall(request.content, FilterModeFor(request.requestType))] else []
  }

  /** The call made to the edge agent once the filtering step is done. */
  function EnforceCallFor(request: SecurityRequest, decisions: seq<PolicyDecision>,
                          shielded: ShieldAdapter.FilterOutput): AdapterCall
  {
    EnforceCall(request.(content := shielded.filtered), PrimaryDecision(decisions))
  }

  lemma NoEmitsBeforeAccounting(request: SecurityRequest, decisions: seq<PolicyDecision>,
                                shielded: ShieldAdapter.FilterOutput)
    ensures Emits(ShieldLog(request, decisions)) == []
    ensures Emits(ShieldLog(request, decisions) + [EnforceCallFor(request, decisions, shielded)]) == []
  {
    EmitsOfSingle(EvaluateCall(request));
    if NeedsFiltering(decisions, request.requestType) {
      EmitsSnoc([EvaluateCall(request)], FilterCall(request.content, FilterModeFor(request.requestType)));
    } else {
      assert ShieldLog(request, decisions) == [EvaluateCall(request)];
    }
    EmitsSnoc(ShieldLog(request, decisions), EnforceCallFor(request, decisions, shielded));
  }

  /** Enforcement extends the log with the edge-agent call and then, at most,
      incident emissions. */
  lemma EnforcingLog(adapters: OrchestratorConfig, request: SecurityRequest, decisions: seq<PolicyDecision>,
                     shielded: ShieldAdapter.FilterOutput, now: nat, log: seq<AdapterCall>)
    ensures var run := Enforcing(adapters, request, decisions, shielded, now, log);
      |log| < |run.calls| && run.calls[..|log| + 1] == log + [EnforceCallFor(request, decisions, shielded)] &&
      forall i :: |log| < i < |run.calls| ==> run.calls[i].EmitCall?
  {
  }

  /** With no deny, the pipeline goes on to filtering ... */
  lemma PastDeny(adapters: OrchestratorConfig, request: SecurityRequest, now: nat, decisions: seq<PolicyDecision>)
    requires PolicyAdapter.Evaluate(adapters.policy, request) == Success(decisions)
    requires forall i :: 0 <= i < |decisions| ==> decisions[i].action != Deny
    ensures Pipeline(adapters, request, now) == Filtering(adapters, request, decisions, now, [EvaluateCall(request)])
  {
    assert FirstMatch(decisions, {Deny}).None?;
  }

  /** ... and, once the shield step succeeds, to enforcement. */
  lemma PastShield(adapters: OrchestratorConfig, request: SecurityRequest, now: nat,
                   decisions: seq<PolicyDecision>, shielded: ShieldAdapter.FilterOutput)
    requires PolicyAdapter.Evaluate(adapters.policy, request) == Success(decisions)
    requires forall i :: 0 <= i < |decisions| ==> decisions[i].action != Deny
    requires ShieldStep(adapters, request, decisions) == Success(shielded)
    ensures Pipeline(adapters, request, now)
         == Enforcing(adapters, request, decisions, shielded, now, ShieldLog(request, decisions))
  {
    PastDeny(adapters, request, now, decisions);
  }

  // ---------------------------------------------------------------------------
  // Decision aggregation
  // ---------------------------------------------------------------------------

  /** `NonAllow` is the order-preserving filter: it keeps a single decision
      exactly when it is not an allow ... */
  lemma NonAllowOfSingle(d: PolicyDecision)
    ensures NonAllow([d]) == if d.action == Allow then [] else [d]
  {
    assert [d][1..] == [];
  }

  /** ... and distributes over concatenation. */
  lemma {:induction false} NonAllowDistributes(a: seq<PolicyDecision>, b: seq<PolicyDecision>)
    ensures NonAllow(a + b) == NonAllow(a) + NonAllow(b)
  {
    if a == [] {
      assert a + b == b;
    } else {
      var head := if a[0].action == Allow then [] else [a[0]];
      assert (a + b)[0] == a[0];
      assert (a + b)[1..] == a[1..] + b;
      NonAllowDistributes(a[1..], b);
      calc {
        NonAllow(a + b);
        head + NonAllow(a[1..] + b);
        head + (NonAllow(a[1..]) + NonAllow(b));
        (head + NonAllow(a[1..])) + NonAllow(b);
        NonAllow(a) + NonAllow(b);
      }
    }
  }

  /** ... and drops no decision that is not an allow. */
  lemma {:induction false} NonAllowKeepsEveryNonAllow(decisions: seq<PolicyDecision>)
    ensures forall i :: 0 <= i < |decisions| && decisions[i].action != Allow ==> decisions[i] in NonAllow(decisions)
  {
    if decisions != [] {
      NonAllowKeepsEveryNonAllow(decisions[1..]);
      forall i | 0 <= i < |decisions| && decisions[i].action != Allow
        ensures decisions[i] in NonAllow(decisions)
      {
        if i > 0 {
          assert decisions[i] == decisions[1..][i - 1];
        }
      }
    }
  }

  /** The first residual violation comes from the first decision that is not
      an allow, and there is one exactly when such a decision exists. */
  lemma {:induction false} FirstResidualIsFirstNonAllow(decisions: seq<PolicyDecision>)
    ensures NonAllow(decisions) != [] <==> FirstMatch(decisions, {Deny, Filter, Redact}).Some?
    ensures NonAllow(decisions) != [] ==>
      NonAllow(decisions)[0] == decisions[FirstMatch(decisions, {Deny, Filter, Redact}).value]
  {
    if decisions != [] && decisions[0].action == Allow {
      FirstResidualIsFirstNonAllow(decisions[1..]);
    }
  }

  // ---------------------------------------------------------------------------
  // Step 2: the deny short-circuit
  // ---------------------------------------------------------------------------

  /** When the policies contain a deny, the first deny in the sequence, wherever
      it stands, rejects the request with a high violation; exactly one high
      incident is raised, and neither the shield nor the edge agent is called. */
  lemma DenyShortCircuits(adapters: OrchestratorConfig, request: SecurityRequest, now: nat,
                          decisions: seq<PolicyDecision>, k: nat)
    requires PolicyAdapter.Evaluate(adapters.policy, request) == Success(decisions)
    requires k < |decisions| && decisions[k].action == Deny
    requires forall j :: 0 <= j < k ==> decisions[j].action != Deny
    ensures var run := Pipeline(adapters, request, now);
      Adapters(run.calls) == [PolicyName, IncidentName] &&
      Emits(run.calls) == [ViolationSignal(request, decisions[k].policyId, High)] &&
      (run.result.Success? ==>
        run.result.value == SecurityResult(request.id, false, None, None,
                                           Some([ViolationEntry(decisions[k].policyId, High)]), None)) &&
      (run.result.Failure? ==> run.result.error.adapter == IncidentName)
    ensures var emitted := IncidentAdapter.Emit(adapters.incident, ViolationSignal(request, decisions[k].policyId, High), now);
      Pipeline(adapters, request, now).result ==
        if emitted.Failure? then Failure(emitted.error)
        else Success(SecurityResult(request.id, false, None, None,
                                    Some([ViolationEntry(decisions[k].policyId, High)]), None))
  {
    var signal := ViolationSignal(request, decisions[k].policyId, High);
    EmitsSnoc([EvaluateCall(request)], EmitCall(signal));
    EmitsOfSingle(EvaluateCall(request));
  }

  /** First deny, not first position: a deny before or after an allow gives the
      same rejection, while the primary decision is the first element. */
  lemma DenyPositionDoesNotMatter(adapters: OrchestratorConfig, request: SecurityRequest, now: nat)
    ensures
      var deny := PolicyDecision("p1", Deny, None);
      var allow := PolicyDecision("p0", Allow, None);
      var first := adapters.(policy := PolicyAdapter.PolicyBound(_ => Success([deny, allow])));
      var last := adapters.(policy := PolicyAdapter.PolicyBound(_ => Success([allow, deny])));
      Pipeline(first, request, now).result == Pipeline(last, request, now).result &&
      (Pipeline(first, request, now).result.Success? ==>
        Pipeline(first, request, now).result.value.violations == Some([ViolationEntry("p1", High)])) &&
      PrimaryDecision([deny, allow]) == deny && PrimaryDecision([allow, deny]) == allow
  {
  }

  // ---------------------------------------------------------------------------
  // Step 3: filtering
  // ---------------------------------------------------------------------------

  /** Past the deny check, the shield is called exactly when some decision asks
      for filtering or redaction or the request is a prompt or an output; it
      gets the original content, in prompt mode for runtime requests and in
      the request's own mode otherwise. When it is not called, the edge agent
      sees the request unchanged and the redactions stay empty. */
  lemma ShieldRunsWhenNeeded(adapters: OrchestratorConfig, request: SecurityRequest, now: nat,
                             decisions: seq<PolicyDecision>)
    requires PolicyAdapter.Evaluate(adapters.policy, request) == Success(decisions)
    requires forall i :: 0 <= i < |decisions| ==> decisions[i].action != Deny
    ensures var run := Pipeline(adapters, request, now);
      var mode := if request.requestType == Output then OutputMode else PromptMode;
      var needed := (exists i :: 0 <= i < |decisions| && decisions[i].action in {Filter, Redact}) ||
                    request.requestType == Prompt || request.requestType == Output;
      |run.calls| >= 2 &&
      (needed ==> run.calls[1] == FilterCall(request.content, mode)) &&
      (!needed ==> (forall c :: c in run.calls ==> !c.FilterCall?) &&
                   run.calls[1] == EnforceCall(request, PrimaryDecision(decisions)))
  {
    PastDeny(adapters, request, now, decisions);
    var run := Pipeline(adapters, request, now);
    var log := ShieldLog(request, decisions);
    assert (exists i :: 0 <= i < |decisions| && decisions[i].action in {Filter, Redact})
       <==> FirstMatch(decisions, {Filter, Redact}).Some?;
    match ShieldStep(adapters, request, decisions)
    case Failure(_) =>
      assert run.calls == log;
    case Success(shielded) =>
      PastShield(adapters, request, now, decisions, shielded);
      EnforcingLog(adapters, request, decisions, shielded, now, log);
      var enforce := EnforceCallFor(request, decisions, shielded);
      assert run.calls[1] == (log + [enforce])[1];
      if !NeedsFiltering(decisions, request.requestType) {
        assert request.(content := request.content) == request;
        forall c | c in run.calls ensures !c.FilterCall? {
          var i :| 0 <= i < |run.calls| && run.calls[i] == c;
          if i < 2 {
            assert c == (log + [enforce])[i];
          }
        }
      }
  }

  /** When the shield does not run, an allowed result carries the original
      content (unless the edge agent rewrote it) and no redactions. */
  lemma UnfilteredRequestKeepsContent(adapters: OrchestratorConfig, request: SecurityRequest, now: nat,
                                      decisions: seq<PolicyDecision>)
    requires PolicyAdapter.Evaluate(adapters.policy, request) == Success(decisions)
    requires forall i :: 0 <= i < |decisions| ==> decisions[i].action in {Allow}
    requires request.requestType == Runtime
    ensures var run := Pipeline(adapters, request, now);
      run.result.Success? && run.result.value.allowed ==>
        run.result.value.redactions == Some([]) &&
        run.result.value.filtered == Some(
          EdgeAgentAdapter.Enforce(adapters.edgeAgent, request, PrimaryDecision(decisions))
            .value.modifications.GetOr(request.content))
  {
    var shielded := ShieldAdapter.FilterOutput(request.content, []);
    assert !NeedsFiltering(decisions, request.requestType);
    assert request.(content := request.content) == request;
    var enforced := EdgeAgentAdapter.Enforce(adapters.edgeAgent, request, PrimaryDecision(decisions));
    PastShield(adapters, request, now, decisions, shielded);
    if enforced.Success? && enforced.value.enforced {
      EnforcedRequestIsAllowed(adapters, request, now, decisions, shielded, enforced.value.modifications);
    }
  }

  // ---------------------------------------------------------------------------
  // Steps 4-6: the primary decision and enforcement
  // ---------------------------------------------------------------------------

  /** The edge agent is called once, with the original request whose content
      alone is replaced by the filtered text, and with the first decision (the
      default allow when there is none). */
  lemma EnforcementSeesFilteredRequest(adapters: OrchestratorConfig, request: SecurityRequest, now: nat,
                                       decisions: seq<PolicyDecision>, shielded: ShieldAdapter.FilterOutput)
    requires PolicyAdapter.Evaluate(adapters.policy, request) == Success(decisions)
    requires forall i :: 0 <= i < |decisions| ==> decisions[i].action != Deny
    requires ShieldStep(adapters, request, decisions) == Success(shielded)
    ensures var run := Pipeline(adapters, request, now);
      exists i :: 0 <= i < |run.calls| && run.calls[i].EnforceCall?
    ensures var run := Pipeline(adapters, request, now);
      forall c :: c in run.calls && c.EnforceCall? ==>
        c.request.content == shielded.filtered &&
        c.request.id == request.id && c.request.requestType == request.requestType &&
        c.request.context == request.context && c.request.metadata == request.metadata &&
        (|decisions| > 0 ==> c.decision == decisions[0]) &&
        (decisions == [] ==> c.decision == PolicyDecision("default", Allow, None))
  {
    PastShield(adapters, request, now, decisions, shielded);
    var log := ShieldLog(request, decisions);
    EnforcingLog(adapters, request, decisions, shielded, now, log);
    var run := Pipeline(adapters, request, now);
    var enforce := EnforceCallFor(request, decisions, shielded);
    assert run.calls[|log|] == (log + [enforce])[|log|] == enforce;
    forall c | c in run.calls && c.EnforceCall? ensures c == enforce {
      var i :| 0 <= i < |run.calls| && run.calls[i] == c;
      if i <= |log| {
        assert c == (log + [enforce])[i];
      }
    }
  }

  /** An edge agent that does not enforce rejects the request with one medium
      violation against the primary decision's policy; the filtering done is
      dropped from the result and exactly one medium incident is raised. */
  lemma EnforcementRejectionShortCircuits(adapters: OrchestratorConfig, request: SecurityRequest, now: nat,
                                          decisions: seq<PolicyDecision>, shielded: ShieldAdapter.FilterOutput,
                                          modifications: Option<string>)
    requires PolicyAdapter.Evaluate(adapters.policy, request) == Success(decisions)
    requires forall i :: 0 <= i < |decisions| ==> decisions[i].action != Deny
    requires ShieldStep(adapters, request, decisions) == Success(shielded)
    requires EdgeAgentAdapter.Enforce(adapters.edgeAgent, request.(content := shielded.filtered),
                                      PrimaryDecision(decisions))
          == Success(EdgeAgentAdapter.Enforcement(false, modifications))
    ensures var run := Pipeline(adapters, request, now);
      var policy := PrimaryDecision(decisions).policyId;
      Emits(run.calls) == [ViolationSignal(request, policy, Medium)] &&
      run.calls[|run.calls| - 1] == EmitCall(ViolationSignal(request, policy, Medium)) &&
      (run.result.Success? ==>
        run.result.value == SecurityResult(request.id, false, None, None,
                                           Some([ViolationEntry(policy, Medium)]), None)) &&
      (run.result.Failure? ==> run.result.error.adapter == IncidentName)
    ensures var policy := PrimaryDecision(decisions).policyId;
      var emitted := IncidentAdapter.Emit(adapters.incident, ViolationSignal(request, policy, Medium), now);
      Pipeline(adapters, request, now).result ==
        if emitted.Failure? then Failure(emitted.error)
        else Success(SecurityResult(request.id, false, None, None, Some([ViolationEntry(policy, Medium)]), None))
  {
    PastShield(adapters, request, now, decisions, shielded);
    NoEmitsBeforeAccounting(request, decisions, shielded);
    var log := ShieldLog(request, decisions) + [EnforceCallFor(request, decisions, shielded)];
    EmitsSnoc(log, EmitCall(ViolationSignal(request, PrimaryDecision(decisions).policyId, Medium)));
  }

  /** Fail closed: a failing policy engine fails the run with its error, and
      no other adapter is called. */
  lemma PolicyFailureStops(adapters: OrchestratorConfig, request: SecurityRequest, now: nat, e: SecurityError)
    requires PolicyAdapter.Evaluate(adapters.policy, request) == Failure(e)
    ensures Pipeline(adapters, request, now) == Run(Failure(e), [EvaluateCall(request)])
  {
  }

  /** Fail closed: a failing shield fails the run with its error, and the
      edge agent and the incident manager are not called. */
  lemma ShieldFailureStops(adapters: OrchestratorConfig, request: SecurityRequest, now: nat,
                           decisions: seq<PolicyDecision>, e: SecurityError)
    requires PolicyAdapter.Evaluate(adapters.policy, request) == Success(decisions)
    requires forall i :: 0 <= i < |decisions| ==> decisions[i].action != Deny
    requires NeedsFiltering(decisions, request.requestType)
    requires ShieldAdapter.Filter(adapters.shield, request.content, FilterModeFor(request.requestType)) == Failure(e)
    ensures Pipeline(adapters, request, now)
         == Run(Failure(e), [EvaluateCall(request), FilterCall(request.content, FilterModeFor(request.requestType))])
  {
    PastDeny(adapters, request, now, decisions);
  }

  /** Fail closed: a failing edge agent fails the run with its error, and the
      incident manager is not called. */
  lemma EnforceFailureStops(adapters: OrchestratorConfig, request: SecurityRequest, now: nat,
                            decisions: seq<PolicyDecision>, shielded: ShieldAdapter.FilterOutput, e: SecurityError)
    requires PolicyAdapter.Evaluate(adapters.policy, request) == Success(decisions)
    requires forall i :: 0 <= i < |decisions| ==> decisions[i].action != Deny
    requires ShieldStep(adapters, request, decisions) == Success(shielded)
    requires EdgeAgentAdapter.Enforce(adapters.edgeAgent, request.(content := shielded.filtered),
                                      PrimaryDecision(decisions)) == Failure(e)
    ensures var run := Pipeline(adapters, request, now);
      run.result == Failure(e) &&
      run.calls == ShieldLog(request, decisions) + [EnforceCall(request.(content := shielded.filtered),
                                                                PrimaryDecision(decisions))]
  {
    PastShield(adapters, request, now, decisions, shielded);
  }

  // ---------------------------------------------------------------------------
  // Steps 7-8: residual violations and the success result
  // ---------------------------------------------------------------------------

  /** Once the edge agent enforces, the request is allowed. Its violations are
      the non-allow decisions in input order, all low, and absent when there
      are none. Exactly one low incident, citing the first of them, is raised
      when there are some and none otherwise; the incident id is the one that
      incident got. The content is the edge agent's modification if it made
      one, else the filtered text. */
  lemma EnforcedRequestIsAllowed(adapters: OrchestratorConfig, request: SecurityRequest, now: nat,
                                 decisions: seq<PolicyDecision>, shielded: ShieldAdapter.FilterOutput,
                                 modifications: Option<string>)
    requires PolicyAdapter.Evaluate(adapters.policy, request) == Success(decisions)
    requires forall i :: 0 <= i < |decisions| ==> decisions[i].action != Deny
    requires ShieldStep(adapters, request, decisions) == Success(shielded)
    requires EdgeAgentAdapter.Enforce(adapters.edgeAgent, request.(content := shielded.filtered),
                                      PrimaryDecision(decisions))
          == Success(EdgeAgentAdapter.Enforcement(true, modifications))
    ensures var run := Pipeline(adapters, request, now);
      var flagged := NonAllow(decisions);
      var signal := ViolationSignal(request, if flagged == [] then "" else flagged[0].policyId, Low);
      (flagged == [] ==> Emits(run.calls) == [] && run.result.Success?) &&
      (flagged != [] ==> Emits(run.calls) == [signal]) &&
      (run.result.Success? ==>
        var r := run.result.value;
        r.requestId == request.id && r.allowed &&
        r.filtered == Some(if modifications.Some? then modifications.value else shielded.filtered) &&
        r.redactions == Some(shielded.redactions) &&
        (flagged == [] ==> r.violations == None && r.incidentId == None) &&
        (flagged != [] ==>
          r.violations.Some? && |r.violations.value| == |flagged| &&
          (forall i :: 0 <= i < |flagged| ==>
            r.violations.value[i] == ViolationEntry(flagged[i].policyId, Low)) &&
          Success(r.incidentId) == IncidentAdapter.Emit(adapters.incident, signal, now))) &&
      (run.result.Failure? ==> flagged != [] && run.result.error.adapter == IncidentName)
    ensures var flagged := NonAllow(decisions);
      flagged != [] ==>
        var emitted := IncidentAdapter.Emit(adapters.incident, ViolationSignal(request, flagged[0].policyId, Low), now);
        emitted.Failure? ==> Pipeline(adapters, request, now).result == Failure(emitted.error)
  {
    PastShield(adapters, request, now, decisions, shielded);
    NoEmitsBeforeAccounting(request, decisions, shielded);
    var log := ShieldLog(request, decisions) + [EnforceCallFor(request, decisions, shielded)];
    var enforcement := EdgeAgentAdapter.Enforcement(true, modifications);
    assert Pipeline(adapters, request, now) == Accounting(adapters, request, decisions, shielded, enforcement, now, log);
    AccountingOutcome(adapters, request, decisions, shielded, enforcement, now, log);
  }

  lemma AccountingOutcome(adapters: OrchestratorConfig, request: SecurityRequest, decisions: seq<PolicyDecision>,
                          shielded: ShieldAdapter.FilterOutput, enforcement: EdgeAgentAdapter.Enforcement,
                          now: nat, log: seq<AdapterCall>)
    requires enforcement.enforced && Emits(log) == []
    ensures var run := Accounting(adapters, request, decisions, shielded, enforcement, now, log);
      var flagged := NonAllow(decisions);
      var signal := ViolationSignal(request, if flagged == [] then "" else flagged[0].policyId, Low);
      (flagged == [] ==> Emits(run.calls) == [] && run.result.Success?) &&
      (flagged != [] ==> Emits(run.calls) == [signal]) &&
      (run.result.Success? ==>
        var r := run.result.value;
        r.requestId == request.id && r.allowed &&
        r.filtered == Some(enforcement.modifications.GetOr(shielded.filtered)) &&
        r.redactions == Some(shielded.redactions) &&
        (flagged == [] ==> r.violations == None && r.incidentId == None) &&
        (flagged != [] ==>
          r.violations.Some? && |r.violations.value| == |flagged| &&
          (forall i :: 0 <= i < |flagged| ==>
            r.violations.value[i] == ViolationEntry(flagged[i].policyId, Low)) &&
          Success(r.incidentId) == IncidentAdapter.Emit(adapters.incident, signal, now))) &&
      (run.result.Failure? ==> flagged != [] && run.result.error.adapter == IncidentName)
  {
    var flagged := NonAllow(decisions);
    if flagged != [] {
      EmitsSnoc(log, EmitCall(ViolationSignal(request, flagged[0].policyId, Low)));
    }
  }

  // ---------------------------------------------------------------------------
  // Every run
  // ---------------------------------------------------------------------------

  /** What every `process` call returns: the request id is echoed; a rejection
      carries exactly one high or medium violation and nothing else; an
      acceptance carries content and redactions, and violations only when
      there are some, all low. */
  lemma ResultShape(adapters: OrchestratorConfig, request: SecurityRequest, now: nat)
    ensures var run := Pipeline(adapters, request, now);
      run.result.Success? ==>
        var r := run.result.value;
        r.requestId == request.id &&
        (!r.allowed ==>
          r.violations.Some? && |r.violations.value| == 1 &&
          r.violations.value[0].severity in {High, Medium} &&
          r.filtered.None? && r.redactions.None? && r.incidentId.None?) &&
        (r.allowed ==>
          r.filtered.Some? && r.redactions.Some? &&
          (r.violations.Some? ==>
             |r.violations.value| > 0 &&
             forall i :: 0 <= i < |r.violations.value| ==> r.violations.value[i].severity == Low) &&
          (r.incidentId.Some? ==> r.violations.Some?))
  {
    match PolicyAdapter.Evaluate(adapters.policy, request)
    case Failure(_) =>
    case Success(decisions) =>
      match FirstMatch(decisions, {Deny})
      case Some(_) =>
      case None =>
        PastDeny(adapters, request, now, decisions);
        match ShieldStep(adapters, request, decisions)
        case Failure(_) =>
        case Success(shielded) =>
          PastShield(adapters, request, now, decisions, shielded);
          var forwarded := request.(content := shielded.filtered);
          match EdgeAgentAdapter.Enforce(adapters.edgeAgent, forwarded, PrimaryDecision(decisions))
          case Failure(_) =>
          case Success(enforcement) =>
            if enforcement.enforced {
              EnforcedRequestIsAllowed(adapters, request, now, decisions, shielded, enforcement.modifications);
            }
  }

  /** The incidents a run raises: none, or one violation signal for the
      request, whose policy and severity agree with the result reported. */
  lemma RaisedIncident(adapters: OrchestratorConfig, request: SecurityRequest, now: nat)
    returns (policy: string, severity: Severity)
    ensures var run := Pipeline(adapters, request, now);
      Emits(run.calls) == [] || Emits(run.calls) == [ViolationSignal(request, policy, severity)]
    ensures var run := Pipeline(adapters, request, now);
      run.result.Success? ==>
        var r := run.result.value;
        (!r.allowed ==>
          r.violations == Some([ViolationEntry(policy, severity)]) &&
          Emits(run.calls) == [ViolationSignal(request, policy, severity)]) &&
        (r.allowed && r.violations.None? ==> Emits(run.calls) == []) &&
        (r.allowed && r.violations.Some? ==>
          |r.violations.value| > 0 && r.violations.value[0].policy == policy && severity == Low &&
          Emits(run.calls) == [ViolationSignal(request, policy, severity)])
  {
    policy, severity := "", Low;
    match PolicyAdapter.Evaluate(adapters.policy, request)
    case Failure(_) =>
      EmitsOfSingle(EvaluateCall(request));
    case Success(decisions) =>
      match FirstMatch(decisions, {Deny})
      case Some(k) =>
        DenyShortCircuits(adapters, request, now, decisions, k);
        policy, severity := decisions[k].policyId, High;
      case None =>
        PastDeny(adapters, request, now, decisions);
        match ShieldStep(adapters, request, decisions)
        case Failure(_) =>
          NoEmitsBeforeAccounting(request, decisions, ShieldAdapter.FilterOutput(request.content, []));
        case Success(shielded) =>
          PastShield(adapters, request, now, decisions, shielded);
          NoEmitsBeforeAccounting(request, decisions, shielded);
          var forwarded := request.(content := shielded.filtered);
          match EdgeAgentAdapter.Enforce(adapters.edgeAgent, forwarded, PrimaryDecision(decisions))
          case Failure(_) =>
          case Success(enforcement) =>
            if enforcement.enforced {
              EnforcedRequestIsAllowed(adapters, request, now, decisions, shielded, enforcement.modifications);
              var flagged := NonAllow(decisions);
              policy, severity := if flagged == [] then "" else flagged[0].policyId, Low;
            } else {
              EnforcementRejectionShortCircuits(adapters, request, now, decisions, shielded, enforcement.modifications);
              policy, severity := PrimaryDecision(decisions).policyId, Medium;
            }
  }

  /** At most one incident is raised per call, and every signal raised is a
      violation signal from this service naming the request, its type and
      the policy. A rejection raises exactly one, for the policy and severity
      it reports; an acceptance raises one, low and for its first violation,
      exactly when it reports violations. */
  lemma AtMostOneIncident(adapters: OrchestratorConfig, request: SecurityRequest, now: nat)
    ensures var run := Pipeline(adapters, request, now);
      |Emits(run.calls)| <= 1
    ensures var run := Pipeline(adapters, request, now);
      forall s :: s in Emits(run.calls) ==>
        s.signalType == Violation && s.source == "llm-security-core" &&
        s.details.Keys == {"requestId", "policy", "requestType"} &&
        s.details["requestId"] == JString(request.id) &&
        s.details["requestType"] == JString(RequestTypeName(request.requestType)) &&
        s.details["policy"].JString?
    ensures var run := Pipeline(adapters, request, now);
      run.result.Success? ==>
        var r := run.result.value;
        (!r.allowed ==>
          r.violations.Some? && |r.violations.value| == 1 &&
          Emits(run.calls) == [ViolationSignal(request, r.violations.value[0].policy, r.violations.value[0].severity)]) &&
        (r.allowed && r.violations.None? ==> Emits(run.calls) == []) &&
        (r.allowed && r.violations.Some? ==>
          |r.violations.value| > 0 &&
          Emits(run.calls) == [ViolationSignal(request, r.violations.value[0].policy, Low)])
  {
    var policy, severity := RaisedIncident(adapters, request, now);
    var signal := ViolationSignal(request, policy, severity);
    assert signal.details.Keys == {"requestId", "policy", "requestType"};
  }

  /** The adapters are called in the pipeline's fixed order: the policy engine
      first, on the request as given; then, on a deny, only the incident
      manager; otherwise the shield (maybe), the edge agent and the incident
      manager (maybe). */
  lemma CallOrder(adapters: OrchestratorConfig, request: SecurityRequest, now: nat)
    ensures var run := Pipeline(adapters, request, now);
      |run.calls| > 0 && run.calls[0] == EvaluateCall(request)
    ensures var run := Pipeline(adapters, request, now);
      run.result.Success? ==>
        Adapters(run.calls) in {[PolicyName, IncidentName],
                                [PolicyName, ShieldName, EdgeAgentName, IncidentName],
                                [PolicyName, ShieldName, EdgeAgentName],
                                [PolicyName, EdgeAgentName, IncidentName],
                                [PolicyName, EdgeAgentName]}
  {
    var run := Pipeline(adapters, request, now);
    match PolicyAdapter.Evaluate(adapters.policy, request)
    case Failure(_) =>
    case Success(decisions) =>
      match FirstMatch(decisions, {Deny})
      case Some(k) =>
        assert Adapters(run.calls) == [PolicyName, IncidentName];
      case None =>
        PastDeny(adapters, request, now, decisions);
        var filtering := NeedsFiltering(decisions, request.requestType);
        var prefix := if filtering then [PolicyName, ShieldName] else [PolicyName];
        assert Adapters(ShieldLog(request, decisions)) == prefix;
        match ShieldStep(adapters, request, decisions)
        case Failure(_) =>
          assert run.calls == ShieldLog(request, decisions);
        case Success(shielded) =>
          PastShield(adapters, request, now, decisions, shielded);
          EnforcingCalls(adapters, request, decisions, shielded, now, ShieldLog(request, decisions));
          var names := Adapters(run.calls);
          if filtering {
            assert names == [PolicyName, ShieldName, EdgeAgentName] ||
                   names == [PolicyName, ShieldName, EdgeAgentName, IncidentName];
          } else {
            assert names == [PolicyName, EdgeAgentName] || names == [PolicyName, EdgeAgentName, IncidentName];
          }
  }

  /** A failure comes from the last adapter called: nothing runs after it and
      no result is produced. */
  lemma FailureComesFromLastCall(adapters: OrchestratorConfig, request: SecurityRequest, now: nat)
    ensures var run := Pipeline(adapters, request, now);
      run.result.Failure? ==>
        Adapters(run.calls) in {[PolicyName], [PolicyName, IncidentName],
                                [PolicyName, ShieldName], [PolicyName, ShieldName, EdgeAgentName],
                                [PolicyName, ShieldName, EdgeAgentName, IncidentName],
                                [PolicyName, EdgeAgentName], [PolicyName, EdgeAgentName, IncidentName]} &&
        run.result.error.AdapterError? &&
        run.result.error.adapter == run.calls[|run.calls| - 1].Adapter()
  {
    var run := Pipeline(adapters, request, now);
    match PolicyAdapter.Evaluate(adapters.policy, request)
    case Failure(_) =>
      assert Adapters(run.calls) == [PolicyName];
    case Success(decisions) =>
      match FirstMatch(decisions, {Deny})
      case Some(k) =>
        assert Adapters(run.calls) == [PolicyName, IncidentName];
      case None =>
        PastDeny(adapters, request, now, decisions);
        var filtering := NeedsFiltering(decisions, request.requestType);
        var prefix := if filtering then [PolicyName, ShieldName] else [PolicyName];
        assert Adapters(ShieldLog(request, decisions)) == prefix;
        match ShieldStep(adapters, request, decisions)
        case Failure(_) =>
          assert run.calls == ShieldLog(request, decisions);
        case Success(shielded) =>
          PastShield(adapters, request, now, decisions, shielded);
          EnforcingCalls(adapters, request, decisions, shielded, now, ShieldLog(request, decisions));
          var names := Adapters(run.calls);
          if filtering {
            assert names == [PolicyName, ShieldName, EdgeAgentName] ||
                   names == [PolicyName, ShieldName, EdgeAgentName, IncidentName];
          } else {
            assert names == [PolicyName, EdgeAgentName] || names == [PolicyName, EdgeAgentName, IncidentName];
          }
  }

  lemma AdaptersAppend(a: seq<AdapterCall>, b: seq<AdapterCall>)
    ensures Adapters(a + b) == Adapters(a) + Adapters(b)
  {
  }

  /** From enforcement on, the log gains the edge-agent call and at most one
      incident call, and a failure comes from the last of them. */
  lemma EnforcingCalls(adapters: OrchestratorConfig, request: SecurityRequest, decisions: seq<PolicyDecision>,
                       shielded: ShieldAdapter.FilterOutput, now: nat, log: seq<AdapterCall>)
    ensures var run := Enforcing(adapters, request, decisions, shielded, now, log);
      (Adapters(run.calls) == Adapters(log) + [EdgeAgentName] ||
       Adapters(run.calls) == Adapters(log) + [EdgeAgentName, IncidentName]) &&
      (run.result.Failure? ==>
        |run.calls| > 0 && run.result.error.AdapterError? &&
        run.result.error.adapter == run.calls[|run.calls| - 1].Adapter())
  {
    var run := Enforcing(adapters, request, decisions, shielded, now, log);
    var enforce := EnforceCallFor(request, decisions, shielded);
    AdaptersAppend(log, [enforce]);
    if run.calls != log + [enforce] {
      var emit := run.calls[|log| + 1];
      assert run.calls == log + [enforce, emit] && emit.EmitCall?;
      AdaptersAppend(log, [enforce, emit]);
    }
  }

  // ---------------------------------------------------------------------------
  // The pipeline wired to simulators
  // ---------------------------------------------------------------------------

  /** Past the deny check, the primary decision is never a deny. */
  lemma PrimaryIsNotDeny(decisions: seq<PolicyDecision>)
    requires FirstMatch(decisions, {Deny}).None?
    ensures PrimaryDecision(decisions).action != Deny
  {
    if |decisions| > 0 {
      assert decisions[0].action !in {Deny};
    }
  }

  /** With the simulated edge agent the medium rejection is unreachable: a deny
      never gets to enforcement, and the simulator enforces everything else. */
  lemma SimulatedEdgeAgentNeverRejects(adapters: OrchestratorConfig, request: SecurityRequest, now: nat)
    requires adapters.edgeAgent.EdgeAgentSimulator?
    ensures var run := Pipeline(adapters, request, now);
      forall s :: s in Emits(run.calls) ==> s.severity != Medium
    ensures var run := Pipeline(adapters, request, now);
      run.result.Success? && !run.result.value.allowed ==>
        run.result.value.violations.Some? &&
        forall v :: v in run.result.value.violations.value ==> v.severity == High
  {
    match PolicyAdapter.Evaluate(adapters.policy, request)
    case Failure(_) =>
      EmitsOfSingle(EvaluateCall(request));
    case Success(decisions) =>
      match FirstMatch(decisions, {Deny})
      case Some(k) =>
        DenyShortCircuits(adapters, request, now, decisions, k);
      case None =>
        PastDeny(adapters, request, now, decisions);
        PrimaryIsNotDeny(decisions);
        match ShieldStep(adapters, request, decisions)
        case Failure(_) =>
          NoEmitsBeforeAccounting(request, decisions, ShieldAdapter.FilterOutput(request.content, []));
        case Success(shielded) =>
          PastShield(adapters, request, now, decisions, shielded);
          EnforcedRequestIsAllowed(adapters, request, now, decisions, shielded, None);
  }

  /** With the simulated policy engine and an edge agent that enforces the
      default allow, no incident is ever raised and a request that gets
      through is allowed with no violations and no incident id. */
  lemma SimulatedPolicyNeverRaises(adapters: OrchestratorConfig, request: SecurityRequest, now: nat)
    requires adapters.policy.PolicySimulator?
    requires forall r :: EdgeAgentAdapter.Enforce(adapters.edgeAgent, r, DefaultAllow).Success? ==>
                         EdgeAgentAdapter.Enforce(adapters.edgeAgent, r, DefaultAllow).value.enforced
    ensures var run := Pipeline(adapters, request, now);
      Emits(run.calls) == [] &&
      (run.result.Success? ==>
        run.result.value.allowed && run.result.value.violations.None? && run.result.value.incidentId.None?)
  {
    var decisions := [DefaultAllow];
    assert PolicyAdapter.Evaluate(adapters.policy, request) == Success(decisions);
    assert NonAllow(decisions) == [] by { NonAllowOfSingle(DefaultAllow); }
    PastDeny(adapters, request, now, decisions);
    match ShieldStep(adapters, request, decisions)
    case Failure(_) =>
      NoEmitsBeforeAccounting(request, decisions, ShieldAdapter.FilterOutput(request.content, []));
    case Success(shielded) =>
      PastShield(adapters, request, now, decisions, shielded);
      NoEmitsBeforeAccounting(request, decisions, shielded);
      var forwarded := request.(content := shielded.filtered);
      match EdgeAgentAdapter.Enforce(adapters.edgeAgent, forwarded, DefaultAllow)
      case Failure(_) =>
      case Success(enforcement) =>
        EnforcedRequestIsAllowed(adapters, request, now, decisions, shielded, enforcement.modifications);
  }

  /** Every adapter simulated: every request is allowed as it is, with no
      redactions, violations or incident; the shield is skipped for runtime
      requests only. */
  lemma AllSimulatorsAllow(request: SecurityRequest, now: nat)
    ensures
      var adapters := OrchestratorConfig(ShieldAdapter.ShieldSimulator, EdgeAgentAdapter.EdgeAgentSimulator,
                                         IncidentAdapter.IncidentSimulator, PolicyAdapter.PolicySimulator);
      var run := Pipeline(adapters, request, now);
      run.result == Success(SecurityResult(request.id, true, Some(request.content), Some([]), None, None)) &&
      Emits(run.calls) == [] &&
      Adapters(run.calls) == if request.requestType == Runtime then [PolicyName, EdgeAgentName]
                             else [PolicyName, ShieldName, EdgeAgentName]
  {
    var adapters := OrchestratorConfig(ShieldAdapter.ShieldSimulator, EdgeAgentAdapter.EdgeAgentSimulator,
                                       IncidentAdapter.IncidentSimulator, PolicyAdapter.PolicySimulator);
    var decisions := [DefaultAllow];
    var shielded := ShieldAdapter.FilterOutput(request.content, []);
    assert NonAllow(decisions) == [] by { NonAllowOfSingle(DefaultAllow); }
    assert !NeedsFiltering(decisions, request.requestType) ==> request.(content := request.content) == request;
    PastShield(adapters, request, now, decisions, shielded);
    NoEmitsBeforeAccounting(request, decisions, shielded);
    EnforcedRequestIsAllowed(adapters, request, now, decisions, shielded, None);
    CallOrder(adapters, request, now);
  }

  /** With the simulated incident manager, an allowed result has an incident
      id exactly when it reports violations, and the id is the clock's. */
  lemma SimulatedIncidentIdWithViolations(adapters: OrchestratorConfig, request: SecurityRequest, now: nat)
    requires adapters.incident.IncidentSimulator?
    ensures var run := Pipeline(adapters, request, now);
      run.result.Success? && run.result.value.allowed ==>
        (run.result.value.incidentId.Some? <==> run.result.value.violations.Some?) &&
        (run.result.value.incidentId.Some? ==>
           run.result.value.incidentId.value == IncidentAdapter.SimulatedIncidentId(now))
  {
    match PolicyAdapter.Evaluate(adapters.policy, request)
    case Failure(_) =>
    case Success(decisions) =>
      match FirstMatch(decisions, {Deny})
      case Some(k) =>
      case None =>
        PastDeny(adapters, request, now, decisions);
        match ShieldStep(adapters, request, decisions)
        case Failure(_) =>
        case Success(shielded) =>
          PastShield(adapters, request, now, decisions, shielded);
          var forwarded := request.(content := shielded.filtered);
          match EdgeAgentAdapter.Enforce(adapters.edgeAgent, forwarded, PrimaryDecision(decisions))
          case Failure(_) =>
          case Success(enforcement) =>
            if enforcement.enforced {
              EnforcedRequestIsAllowed(adapters, request, now, decisions, shielded, enforcement.modifications);
            }
  }

  /** A policy engine answering one filter decision for policy "p2", an edge
      agent that enforces and rewrites the content to "clean text", and the
      other adapters simulated. */
  function CleanTextAdapters(): OrchestratorConfig {
    OrchestratorConfig(
      ShieldAdapter.ShieldSimulator,
      EdgeAgentAdapter.EdgeAgentBound(_ => Success(EdgeAgentAdapter.EnforceReply(Some(true), Some("clean text")))),
      IncidentAdapter.IncidentSimulator,
      PolicyAdapter.PolicyBound(_ => Success([PolicyDecision("p2", Filter, None)])))
  }

  /** With those adapters the rewritten content is returned, with one low
      violation and one low incident for the filtering policy. */
  lemma CleanTextScenario(request: SecurityRequest, now: nat)
    ensures var run := Pipeline(CleanTextAdapters(), request, now);
      run.result == Success(SecurityResult(request.id, true, Some("clean text"), Some([]),
                                           Some([ViolationEntry("p2", Low)]),
                                           Some(IncidentAdapter.SimulatedIncidentId(now)))) &&
      Emits(run.calls) == [ViolationSignal(request, "p2", Low)]
  {
    var adapters := CleanTextAdapters();
    var filter := PolicyDecision("p2", Filter, None);
    var shielded := ShieldAdapter.FilterOutput(request.content, []);
    assert NonAllow([filter]) == [filter] by { NonAllowOfSingle(filter); }
    assert FirstMatch([filter], {Filter, Redact}) == Some(0);
    assert PolicyAdapter.Evaluate(adapters.policy, request) == Success([filter]);
    assert ShieldStep(adapters, request, [filter]) == Success(shielded);
    assert EdgeAgentAdapter.Enforce(adapters.edgeAgent, request.(content := shielded.filtered), PrimaryDecision([filter]))
        == Success(EdgeAgentAdapter.Enforcement(true, Some("clean text")));
    EnforcedRequestIsAllowed(adapters, request, now, [filter], shielded, Some("clean text"));
    assert ResidualViolations([filter]) == [ViolationEntry("p2", Low)];
  }
}
