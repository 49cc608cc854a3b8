/** The shield adapter (src/adapters/shield.ts): prompt and output filtering,
    either forwarded to a shield backend or simulated as a pass-through. */
module ShieldAdapter {
  import opened Wrappers
  import opened SecurityTypes

  /** What the backend's `filter` receives. */
  datatype ShieldQuery = ShieldQuery(content: string, mode: FilterMode)

  /** What the backend answers; either field may be missing. */
  datatype ShieldReply = ShieldReply(filtered: Option<string>, redactions: Option<seq<Redaction>>)

  /** The adapter's answer to the orchestrator. */
  datatype FilterOutput = FilterOutput(filtered: string, redactions: seq<Redaction>)

  /** `createShieldAdapter(shield?)`: the simulator when no backend is given.
      A backend failure is carried as its message. */
  datatype Shield =
    | ShieldSimulator
    | ShieldBound(backend: ShieldQuery -> Result<ShieldReply, string>)

  /** `filter(content, mode)` */
  function Filter(shield: Shield, content: string, mode: FilterMode): (r: Result<FilterOutput, SecurityError>)
    // The simulator passes the content through untouched, whatever the mode.
    ensures shield.ShieldSimulator? ==> r == Success(FilterOutput(content, []))
    // The bound adapter fails exactly when the backend, asked about this very
    // content and mode, fails.
    ensures shield.ShieldBound? ==>
      (r.Success? <==> shield.backend(ShieldQuery(content, mode)).Success?)
    ensures shield.ShieldBound? && r.Failure? ==>
      r.error == AdapterError(ShieldName, shield.backend(ShieldQuery(content, mode)).error)
    // A backend that omits a field gets the original content and no redactions.
    ensures shield.ShieldBound? && r.Success? ==>
      var reply := shield.backend(ShieldQuery(content, mode)).value;
      (reply.filtered.None? ==> r.value.filtered == content) &&
      (reply.filtered.Some? ==> r.value.filtered == reply.filtered.value) &&
      (reply.redactions.None? ==> r.value.redactions == []) &&
      (reply.redactions.Some? ==> r.value.redactions == reply.redactions.value)
  {
    match shield
    case ShieldSimulator => Success(FilterOutput(content, []))
    case ShieldBound(backend) =>
      match backend(ShieldQuery(content, mode))
      case Failure(message) => Failure(AdapterError(ShieldName, message))
      case Success(reply) =>
        Success(FilterOutput(reply.filtered.GetOr(content), reply.redactions.GetOr([])))
  }

  /** The simulator's answer does not depend on the mode. */
  lemma SimulatorIgnoresMode(content: string, m1: FilterMode, m2: FilterMode)
    ensures Filter(ShieldSimulator, content, m1) == Filter(ShieldSimulator, content, m2)
    ensures Filter(ShieldSimulator, content, m1).value.filtered == content
    ensures Filter(ShieldSimulator, content, m1).value.redactions == []
  {
  }
}
