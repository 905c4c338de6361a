/** The two integer enumerations of the fleet service (main.py:21-29).  Their
    integer values are a wire contract shared with the external orchestrator,
    so each enumeration comes with its encoding, its partial decoding, and the
    two round-trip lemmas that tie them together. */
module Codes {
  import opened Wrappers

  /** Status of a maintenance record. */
  datatype MaintenanceStatus = InProgress | WaitingForParts | Completed

  /** Kind of a maintenance record. */
  datatype MaintenanceType = StandardService | InitialInspection | Repair

  function StatusCode(s: MaintenanceStatus): (c: int)
    ensures 1 <= c <= 3
  {
    match s
    case InProgress => 1
    case WaitingForParts => 2
    case Completed => 3
  }

  function StatusFromCode(c: int): (r: Option<MaintenanceStatus>)
    ensures r.Some? <==> 1 <= c <= 3
  {
    if c == 1 then Some(InProgress)
    else if c == 2 then Some(WaitingForParts)
    else if c == 3 then Some(Completed)
    else None
  }

  function TypeCode(t: MaintenanceType): (c: int)
    ensures 1 <= c <= 3
  {
    match t
    case StandardService => 1
    case InitialInspection => 2
    case Repair => 3
  }

  function TypeFromCode(c: int): (r: Option<MaintenanceType>)
    ensures r.Some? <==> 1 <= c <= 3
  {
    if c == 1 then Some(StandardService)
    else if c == 2 then Some(InitialInspection)
    else if c == 3 then Some(Repair)
    else None
  }

  /** Every status survives encoding and decoding, and no two statuses share a code. */
  lemma StatusRoundTrip(s: MaintenanceStatus)
    ensures StatusFromCode(StatusCode(s)) == Some(s)
  {
  }

  /** Every accepted code is the encoding of the status it decodes to. */
  lemma StatusCodeRoundTrip(c: int)
    ensures StatusFromCode(c).Some? ==> StatusCode(StatusFromCode(c).value) == c
  {
  }

  lemma TypeRoundTrip(t: MaintenanceType)
    ensures TypeFromCode(TypeCode(t)) == Some(t)
  {
  }

  lemma TypeCodeRoundTrip(c: int)
    ensures TypeFromCode(c).Some? ==> TypeCode(TypeFromCode(c).value) == c
  {
  }
}
