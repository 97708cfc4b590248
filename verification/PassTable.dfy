/**
  The Server's passes table: statuses, reservations, the constraints of the schema
  and the guarded writes the repository offers.
 */
module PassTable {
  import opened Basics

  type PassId = Uuid
  type StationId = Uuid
  type UserId = Uuid

  datatype Status =
    | PendingApproval | Approved | Rejected | Cancelled
    | Executing | Completed | Failed | Missed

  /** The transition table of the state machine. */
  function Allowed(s: Status): set<Status> {
    match s
    case PendingApproval => {Approved, Rejected, Cancelled}
    case Approved => {Cancelled, Executing, Missed}
    case Executing => {Completed, Failed}
    case _ => {}
  }

  predicate IsTerminal(s: Status) {
    Allowed(s) == {}
  }

  /** The statuses whose passes hold their station. */
  predicate HoldsStation(s: Status) {
    s in {PendingApproval, Approved, Executing}
  }

  lemma LiveExactlyWhenNotTerminal(s: Status)
    ensures HoldsStation(s) <==> !IsTerminal(s)
  {
    match s
    case PendingApproval => assert Approved in Allowed(s);
    case Approved => assert Missed in Allowed(s);
    case Executing => assert Failed in Allowed(s);
    case _ =>
  }

  /** Where each status comes from: decisions only from pending, execution and missing only from approved, results only from
      executing, cancellation from either live status before execution. */
  lemma AllowedBySource(a: Status, b: Status)
    ensures b in Allowed(a) <==>
              match b
              case PendingApproval => false
              case Approved => a == PendingApproval
              case Rejected => a == PendingApproval
              case Cancelled => a == PendingApproval || a == Approved
              case Executing => a == Approved
              case Missed => a == Approved
              case Completed => a == Executing
              case Failed => a == Executing
  {
  }

  datatype Reservation = Reservation(from: Time, to: Time) {
    /** Half-open intervals: touching reservations do not overlap. */
    predicate Overlaps(other: Reservation) {
      from < other.to && other.from < to
    }
  }

  datatype Reason = ByOwner | ByAdmin | ByRootOverride

  datatype Cancellation = Cancellation(reason: Reason, actor: UserId, at: Time)

  datatype Decision = Decision(actor: UserId, at: Time)

  datatype Pass = Pass(
    station: StationId,
    requestedBy: UserId,
    status: Status,
    aos: Time,
    los: Time,
    reserved: Reservation,
    preRoll: Time,
    postRoll: Time,
    decision: Option<Decision>,
    cancellation: Option<Cancellation>)

  type Table = map<PassId, Pass>

  /** The row-level CHECK constraints of the schema. */
  predicate RowChecks(p: Pass) {
    && p.aos < p.los
    && p.reserved.from <= p.aos
    && p.los <= p.reserved.to
    && 0 <= p.preRoll && 0 <= p.postRoll
    && (p.status == Cancelled <==> p.cancellation.Some?)
  }

  /** `p` holds `station` during some part of `r`. */
  predicate Conflicting(p: Pass, station: StationId, r: Reservation) {
    p.station == station && HoldsStation(p.status) && p.reserved.Overlaps(r)
  }

  function Conflicts(t: Table, station: StationId, r: Reservation): set<PassId> {
    set q | q in t && Conflicting(t[q], station, r)
  }

  /** Station exclusivity: no two live passes of one station overlap. */
  ghost predicate Exclusive(t: Table) {
    forall a, b :: a in t && b in t && a != b && HoldsStation(t[b].status) ==>
      !Conflicting(t[a], t[b].station, t[b].reserved)
  }

  // ---- Writes. None means that the statement changed no row or was refused. ----

  /** Insert, refused by a row check, a taken id or the exclusion constraint. */
  function Insert(t: Table, id: PassId, p: Pass): Option<Table> {
    if id in t || !RowChecks(p) then None
    else if HoldsStation(p.status) && Conflicts(t, p.station, p.reserved) != {} then None
    else Some(t[id := p])
  }

  function Approve(t: Table, id: PassId, actor: UserId, at: Time): Option<Table> {
    if id in t && t[id].status == PendingApproval
    then Some(t[id := t[id].(status := Approved, decision := Some(Decision(actor, at)))])
    else None
  }

  function Reject(t: Table, id: PassId, actor: UserId, at: Time): Option<Table> {
    if id in t && t[id].status == PendingApproval
    then Some(t[id := t[id].(status := Rejected, decision := Some(Decision(actor, at)))])
    else None
  }

  predicate Cancellable(s: Status) {
    s == PendingApproval || s == Approved
  }

  function CancelledRow(p: Pass, actor: UserId, reason: Reason, at: Time): Pass {
    p.(status := Cancelled, cancellation := Some(Cancellation(reason, actor, at)))
  }

  function Cancel(t: Table, id: PassId, actor: UserId, reason: Reason, at: Time): Option<Table> {
    if id in t && Cancellable(t[id].status)
    then Some(t[id := CancelledRow(t[id], actor, reason, at)])
    else None
  }

  /** An outcome is taken only from a pass that is approved or executing. */
  function SetOutcome(t: Table, id: PassId, outcome: Status): Option<Table> {
    if id in t && (t[id].status == Approved || t[id].status == Executing)
    then Some(t[id := t[id].(status := outcome)])
    else None
  }

  predicate IsOutcome(s: Status) {
    s == Completed || s == Failed || s == Missed
  }
}
