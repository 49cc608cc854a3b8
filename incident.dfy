/** The incident adapter (src/adapters/incident.ts): incident signalling,
    either forwarded to an incident manager or simulated with mock ids built
    from the clock. The clock reading (`Date.now()`) is a parameter. */
module IncidentAdapter {
  import opened Wrappers
  import opened SecurityTypes

  /** What the backend answers; an untyped backend may leave the id out. */
  datatype IncidentReply = IncidentReply(incidentId: Option<string>)

  /** `createIncidentAdapter(incidentManager?)`: the simulator when no manager is given. */
  datatype IncidentManager =
    | IncidentSimulator
    | IncidentBound(backend: IncidentSignal -> Result<IncidentReply, string>)

  const SimulatedIdPrefix := "sim-incident-"

  predicate IsDigit(c: char) { '0' <= c <= '9' }

  predicate AllDigits(s: string) { forall i :: 0 <= i < |s| ==> IsDigit(s[i]) }

  /** The decimal spelling of a clock reading, as a template literal renders it. */
  function Decimal(n: nat): (s: string)
    ensures |s| > 0 && AllDigits(s)
    ensures n == 0 ==> s == "0"
    ensures n > 0 ==> s[0] != '0'
    ensures |s| > 1 ==> s[0] != '0'
    decreases n
  {
    var digit := ('0' as int + n % 10) as char;
    if n < 10 then [digit] else Decimal(n / 10) + [digit]
  }

  /** The value of a string of decimal digits. */
  function DecimalValue(s: string): nat
    requires AllDigits(s)
  {
    if s == [] then 0 else 10 * DecimalValue(s[..|s| - 1]) + (s[|s| - 1] as int - '0' as int)
  }

  lemma {:induction false} DecimalRoundTrip(n: nat)
    ensures DecimalValue(Decimal(n)) == n
    decreases n
  {
    var s := Decimal(n);
    if n >= 10 {
      DecimalRoundTrip(n / 10);
      assert s[..|s| - 1] == Decimal(n / 10);
    }
  }

  /** The simulator's mock id for a clock reading. */
  function SimulatedIncidentId(now: nat): (id: string)
    ensures |id| > |SimulatedIdPrefix| && id[..|SimulatedIdPrefix|] == SimulatedIdPrefix
    ensures AllDigits(id[|SimulatedIdPrefix|..])
  {
    SimulatedIdPrefix + Decimal(now)
  }

  /** The mock id spells out the clock reading it was made from, so two
      different readings never give the same id. */
  lemma SimulatedIdEncodesClock(now: nat)
    ensures DecimalValue(SimulatedIncidentId(now)[|SimulatedIdPrefix|..]) == now
  {
    assert SimulatedIncidentId(now)[|SimulatedIdPrefix|..] == Decimal(now);
    DecimalRoundTrip(now);
  }

  lemma SimulatedIdsDistinct(t1: nat, t2: nat)
    requires t1 != t2
    ensures SimulatedIncidentId(t1) != SimulatedIncidentId(t2)
  {
    SimulatedIdEncodesClock(t1);
    SimulatedIdEncodesClock(t2);
  }

  /** `emit(signal)`: the id of the incident raised, if the manager gave one. */
  function Emit(manager: IncidentManager, signal: IncidentSignal, now: nat): (r: Result<Option<string>, SecurityError>)
    // The simulator never fails and ignores the signal: its id is the prefix
    // followed by the clock reading.
    ensures manager.IncidentSimulator? ==>
      r.Success? && r.value.Some? && r.value.value == SimulatedIncidentId(now) &&
      r.value.value[..|SimulatedIdPrefix|] == SimulatedIdPrefix
    // The bound adapter hands the signal to the manager as it is and returns
    // exactly the manager's id; it fails exactly when the manager fails.
    ensures manager.IncidentBound? ==>
      (r.Success? <==> manager.backend(signal).Success?) &&
      (r.Success? ==> r.value == manager.backend(signal).value.incidentId) &&
      (r.Failure? ==> r.error == AdapterError(IncidentName, manager.backend(signal).error))
  {
    match manager
    case IncidentSimulator => Success(Some(SimulatedIncidentId(now)))
    case IncidentBound(backend) =>
      match backend(signal)
      case Failure(message) => Failure(AdapterError(IncidentName, message))
      case Success(reply) => Success(reply.incidentId)
  }
}
