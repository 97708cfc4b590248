/**
  Runs of the scheduling service: every sequence of requests, root overrides, decisions,
  cancellations and outcome reports, in any order and any interleaving of the guarded writes.
 */
module Scheduling {
  import opened Basics
  import opened PassTable

  datatype Audit =
    | OverriddenBy(actor: UserId, passId: PassId, previous: Status)
    | OverrideCreated(actor: UserId, passId: PassId, overridden: nat, aos: Time)

  datatype Db = Db(passes: Table, audit: seq<Audit>)

  datatype Op =
    | Request(id: PassId, pass: Pass)
    | RootOverride(id: PassId, pass: Pass, actor: UserId, at: Time, order: seq<PassId>)
    | ApproveOp(id: PassId, actor: UserId, at: Time)
    | RejectOp(id: PassId, actor: UserId, at: Time)
    | CancelOp(id: PassId, actor: UserId, reason: Reason, at: Time)
    | ReportOp(id: PassId, outcome: Status)

  // ---- The root override transaction ----

  /** `order` lists exactly the live passes in the way of `pass`, earliest reservation first. */
  ghost predicate ListsConflicts(t: Table, pass: Pass, order: seq<PassId>) {
    && NoDuplicates(order)
    && (forall q :: q in order <==> q in Conflicts(t, pass.station, pass.reserved))
    && (forall i, j :: 0 <= i < j < |order| && order[i] in t && order[j] in t ==>
          t[order[i]].reserved.from <= t[order[j]].reserved.from)
  }

  function OverrideAudits(t: Table, order: seq<PassId>, actor: UserId): seq<Audit>
    requires forall q :: q in order ==> q in t
  {
    seq(|order|, i requires 0 <= i < |order| => OverriddenBy(actor, order[i], t[order[i]].status))
  }

  /** The new pass as the transaction leaves it. */
  function ApprovedRow(pass: Pass, actor: UserId, at: Time): Pass {
    pass.(status := Approved, decision := Some(Decision(actor, at)))
  }

  function Overridden(t: Table, hit: set<PassId>, id: PassId, pass: Pass, actor: UserId, at: Time): Table {
    map q | q in t.Keys + {id} ::
      if q == id then ApprovedRow(pass, actor, at)
      else if q in hit then CancelledRow(t[q], actor, ByRootOverride, at)
      else t[q]
  }

  /** The override goes through exactly when nothing in its way has begun executing and the row is legal. */
  predicate OverrideAccepted(t: Table, id: PassId, pass: Pass) {
    && id !in t
    && pass.status == PendingApproval
    && RowChecks(pass)
    && forall q :: q in Conflicts(t, pass.station, pass.reserved) ==> Cancellable(t[q].status)
  }

  // ---- One step, and whole runs. A write that is refused changes nothing. ----

  function Written(db: Db, t: Option<Table>): Db {
    match t
    case Some(table) => db.(passes := table)
    case None => db
  }

  ghost function Next(db: Db, op: Op): Db {
    match op
    case Request(id, pass) =>
      if pass.status == PendingApproval then Written(db, Insert(db.passes, id, pass)) else db
    case RootOverride(id, pass, actor, at, order) =>
      if ListsConflicts(db.passes, pass, order) && OverrideAccepted(db.passes, id, pass)
      then Db(Overridden(db.passes, Conflicts(db.passes, pass.station, pass.reserved), id, pass, actor, at),
              db.audit + OverrideAudits(db.passes, order, actor) + [OverrideCreated(actor, id, |order|, pass.aos)])
      else db
    case ApproveOp(id, actor, at) => Written(db, Approve(db.passes, id, actor, at))
    case RejectOp(id, actor, at) => Written(db, Reject(db.passes, id, actor, at))
    case CancelOp(id, actor, reason, at) => Written(db, Cancel(db.passes, id, actor, reason, at))
    case ReportOp(id, outcome) =>
      if IsOutcome(outcome) then Written(db, SetOutcome(db.passes, id, outcome)) else db
  }

  const EMPTY := Db(map[], [])

  ghost function Run(ops: seq<Op>): Db {
    if ops == [] then EMPTY else Next(Run(ops[..|ops| - 1]), ops[|ops| - 1])
  }

  // ---- Station exclusivity ----

  /** What a single write may do to a pass that was already there. */
  ghost predicate Evolves(before: Pass, after: Pass) {
    && after.station == before.station
    && after.reserved == before.reserved
    && after.aos == before.aos && after.los == before.los
    && after.preRoll == before.preRoll && after.postRoll == before.postRoll
    && (HoldsStation(after.status) ==> HoldsStation(before.status))
    && (after.status == before.status || Leads(before.status, after.status))
  }

  /** A chain of one or more allowed transitions from `a` to `b`. */
  ghost predicate Leads(a: Status, b: Status) {
    exists path: seq<Status> :: Chain(path) && path[0] == a && path[|path| - 1] == b
  }

  ghost predicate Chain(path: seq<Status>) {
    |path| >= 2 && forall i :: 0 <= i < |path| - 1 ==> path[i + 1] in Allowed(path[i])
  }

  lemma DirectLeads(a: Status, b: Status)
    requires b in Allowed(a)
    ensures Leads(a, b)
  {
    var path := [a, b];
    assert Chain(path);
  }

  lemma OutcomeLeads(a: Status, outcome: Status)
    requires a == Approved || a == Executing
    requires IsOutcome(outcome)
    requires a == Executing ==> outcome != Missed
    ensures Leads(a, outcome)
  {
    if outcome in Allowed(a) {
      DirectLeads(a, outcome);
    } else {
      var path := [Approved, Executing, outcome];
      assert Chain(path);
    }
  }

  /** Nothing the service writes ever reaches "executing". */
  ghost predicate NeverExecuting(t: Table) {
    forall q :: q in t ==> t[q].status != Executing
  }

  /** Every write keeps existing passes, moves statuses only along chains of the table, and revives nothing. */
  lemma StepEvolves(db: Db, op: Op, q: PassId)
    requires NeverExecuting(db.passes)
    requires q in db.passes
    ensures q in Next(db, op).passes && Evolves(db.passes[q], Next(db, op).passes[q])
  {
    var t := db.passes;
    var after := Next(db, op).passes;
    match op
    case Request(id, pass) =>
    case RootOverride(id, pass, actor, at, order) =>
      if after[q].status != t[q].status { DirectLeads(t[q].status, Cancelled); }
    case ApproveOp(id, actor, at) =>
      if after[q].status != t[q].status { DirectLeads(PendingApproval, Approved); }
    case RejectOp(id, actor, at) =>
      if after[q].status != t[q].status { DirectLeads(PendingApproval, Rejected); }
    case CancelOp(id, actor, reason, at) =>
      if after[q].status != t[q].status { DirectLeads(t[q].status, Cancelled); }
    case ReportOp(id, outcome) =>
      if after[q].status != t[q].status { OutcomeLeads(t[q].status, outcome); }
  }

  ghost predicate Invariant(t: Table) {
    && Exclusive(t)
    && NeverExecuting(t)
    && forall q :: q in t ==> RowChecks(t[q])
  }

  /** The only pass a write can add, and it never overlaps a live one. */
  lemma StepAdds(db: Db, op: Op, q: PassId)
    requires q !in db.passes && q in Next(db, op).passes
    ensures op.Request? || op.RootOverride?
    ensures q == op.id
    ensures Next(db, op).passes[q].reserved == op.pass.reserved
    ensures Next(db, op).passes[q].station == op.pass.station
    ensures RowChecks(Next(db, op).passes[q])
    ensures Next(db, op).passes[q].status in {PendingApproval, Approved}
    ensures forall a :: a in db.passes && a in Next(db, op).passes ==>
              !Conflicting(Next(db, op).passes[a], op.pass.station, op.pass.reserved)
  {
    var t := db.passes;
    forall a | a in t && a in Next(db, op).passes
      ensures !Conflicting(Next(db, op).passes[a], op.pass.station, op.pass.reserved)
    {
      assert a in Conflicts(t, op.pass.station, op.pass.reserved) <==> Conflicting(t[a], op.pass.station, op.pass.reserved);
    }
  }

  lemma StepKeepsInvariant(db: Db, op: Op)
    requires Invariant(db.passes)
    ensures Invariant(Next(db, op).passes)
  {
    var t, after := db.passes, Next(db, op).passes;
    forall q | q in after
      ensures after[q].status != Executing && RowChecks(after[q])
    {
      if q in t { StepEvolves(db, op, q); } else { StepAdds(db, op, q); }
    }
    forall a, b | a in after && b in after && a != b && HoldsStation(after[b].status)
      ensures !Conflicting(after[a], after[b].station, after[b].reserved)
    {
      if a in t { StepEvolves(db, op, a); } else { StepAdds(db, op, a); }
      if b in t { StepEvolves(db, op, b); } else { StepAdds(db, op, b); }
    }
  }

  /** Main result: in every reachable state no two live passes of one station overlap. */
  lemma StationExclusivity(ops: seq<Op>)
    ensures var t := Run(ops).passes;
            forall a, b :: a in t && b in t && a != b && t[a].station == t[b].station
                           && t[a].status in {PendingApproval, Approved, Executing}
                           && t[b].status in {PendingApproval, Approved, Executing} ==>
              t[a].reserved.to <= t[b].reserved.from || t[b].reserved.to <= t[a].reserved.from
    ensures var t := Run(ops).passes;
            forall q :: q in t ==>
              && t[q].reserved.from <= t[q].aos < t[q].los <= t[q].reserved.to
              && t[q].status != Executing && (t[q].status == Cancelled <==> t[q].cancellation.Some?)
  {
    RunKeepsInvariant(ops);
    var t := Run(ops).passes;
    forall a, b | a in t && b in t && a != b && t[a].station == t[b].station
                  && t[a].status in {PendingApproval, Approved, Executing}
                  && t[b].status in {PendingApproval, Approved, Executing}
      ensures t[a].reserved.to <= t[b].reserved.from || t[b].reserved.to <= t[a].reserved.from
    {
      assert !Conflicting(t[a], t[b].station, t[b].reserved);
    }
    forall q | q in t ensures RowChecks(t[q]) && t[q].status != Executing {
    }
  }

  lemma {:induction false} RunKeepsInvariant(ops: seq<Op>)
    ensures Invariant(Run(ops).passes)
  {
    if ops != [] {
      RunKeepsInvariant(ops[..|ops| - 1]);
      StepKeepsInvariant(Run(ops[..|ops| - 1]), ops[|ops| - 1]);
    }
  }

  // ---- Lifecycle ----

  /** The distinct statuses `p` has gone through, in order. */
  ghost function Trail(ops: seq<Op>, p: PassId): seq<Status> {
    if ops == [] || p !in Run(ops).passes then []
    else
      var before := Trail(ops[..|ops| - 1], p);
      var now := Run(ops).passes[p].status;
      if before != [] && before[|before| - 1] == now then before else before + [now]
  }

  ghost predicate LegalTrail(trail: seq<Status>) {
    && |trail| <= 3
    && (trail != [] ==> trail[0] in {PendingApproval, Approved})
    && (forall i :: 0 <= i < |trail| ==> trail[i] != Executing)
    && (forall i :: 0 <= i < |trail| - 1 ==> Leads(trail[i], trail[i + 1]))
    && (|trail| == 2 && !IsTerminal(trail[1]) ==> trail == [PendingApproval, Approved])
    && (|trail| == 3 ==> trail[..2] == [PendingApproval, Approved] && IsTerminal(trail[2]))
  }

  lemma LeadsFromLive(a: Status, b: Status)
    requires Leads(a, b)
    ensures !IsTerminal(a)
    ensures a == Approved ==> b != PendingApproval && b != Approved
    ensures b != PendingApproval
  {
    var path :| Chain(path) && path[0] == a && path[|path| - 1] == b;
    assert path[1] in Allowed(path[0]);
    assert b in Allowed(path[|path| - 2]);
    if |path| >= 3 {
      assert path[|path| - 2] in Allowed(path[|path| - 3]);
    }
  }

  lemma {:induction false} TrailEndsAtStatus(ops: seq<Op>, p: PassId)
    ensures p in Run(ops).passes ==> Trail(ops, p) != [] && Trail(ops, p)[|Trail(ops, p)| - 1] == Run(ops).passes[p].status
    ensures p !in Run(ops).passes ==> Trail(ops, p) == []
  {
  }

  /** Main result: over every run a pass changes status at most twice, always along the table, never executing. */
  lemma {:induction false} LifecycleRefinement(ops: seq<Op>, p: PassId)
    ensures LegalTrail(Trail(ops, p))
  {
    if ops != [] && p in Run(ops).passes {
      var init, op := ops[..|ops| - 1], ops[|ops| - 1];
      LifecycleRefinement(init, p);
      RunKeepsInvariant(init);
      TrailEndsAtStatus(init, p);
      var before, now := Trail(init, p), Run(ops).passes[p].status;
      if p in Run(init).passes {
        StepEvolves(Run(init), op, p);
        RunKeepsInvariant(ops);
        var last := before[|before| - 1];
        if last != now {
          LeadsFromLive(last, now);
        }
      } else {
        StepAdds(Run(init), op, p);
      }
    }
  }

  // ---- The override as a whole ----

  /** What the schema demands of the table, whatever its passes are doing. */
  ghost predicate Legal(t: Table) {
    Exclusive(t) && forall q :: q in t ==> RowChecks(t[q])
  }

  /** The override of any legal table leaves a legal table. */
  lemma OverrideKeepsLegal(t: Table, id: PassId, pass: Pass, actor: UserId, at: Time)
    requires Legal(t) && OverrideAccepted(t, id, pass)
    ensures Legal(Overridden(t, Conflicts(t, pass.station, pass.reserved), id, pass, actor, at))
  {
    var hit := Conflicts(t, pass.station, pass.reserved);
    var after := Overridden(t, hit, id, pass, actor, at);
    forall a, b | a in after && b in after && a != b && HoldsStation(after[b].status)
      ensures !Conflicting(after[a], after[b].station, after[b].reserved)
    {
      StaysApart(t, after, hit, id, pass, a, b);
    }
  }

  lemma StaysApart(t: Table, after: Table, hit: set<PassId>, id: PassId, pass: Pass, a: PassId, b: PassId)
    requires Exclusive(t) && id !in t && hit == Conflicts(t, pass.station, pass.reserved)
    requires a in after && b in after && a != b && HoldsStation(after[b].status)
    requires forall q :: q in after && q != id ==> q in t && after[q].station == t[q].station && after[q].reserved == t[q].reserved
    requires forall q :: q in after && q != id ==> after[q].status == if q in hit then Cancelled else t[q].status
    requires id in after ==> after[id].station == pass.station && after[id].reserved == pass.reserved
    ensures !Conflicting(after[a], after[b].station, after[b].reserved)
  {
    if a != id { assert a in hit <==> Conflicting(t[a], pass.station, pass.reserved); }
    if b != id { assert b in hit <==> Conflicting(t[b], pass.station, pass.reserved); }
  }

  /**
    Main result: on any legal table, executing passes included, the override is all or nothing. It is refused when a pass
    in the way is executing, and refused or not, its effect is exactly as announced.
   */
  lemma OverrideAllOrNothing(db: Db, id: PassId, pass: Pass, actor: UserId, at: Time, order: seq<PassId>)
    requires Legal(db.passes)
    requires ListsConflicts(db.passes, pass, order)
    ensures var op := RootOverride(id, pass, actor, at, order);
            var after := Next(db, op);
            var hit := Conflicts(db.passes, pass.station, pass.reserved);
            && Legal(after.passes)
            && ((exists q :: q in hit && db.passes[q].status == Executing) ==> !OverrideAccepted(db.passes, id, pass))
            && if !OverrideAccepted(db.passes, id, pass) then after == db
               else
                 && after.passes.Keys == db.passes.Keys + {id}
                 && after.passes[id] == pass.(status := Approved, decision := Some(Decision(actor, at)))
                 && (forall q :: q in db.passes ==>
                       after.passes[q] == (if && db.passes[q].station == pass.station
                                              && db.passes[q].status in {PendingApproval, Approved, Executing}
                                              && db.passes[q].reserved.from < pass.reserved.to
                                              && pass.reserved.from < db.passes[q].reserved.to
                                           then db.passes[q].(status := Cancelled,
                                                              cancellation := Some(Cancellation(ByRootOverride, actor, at)))
                                           else db.passes[q]))
                 && |after.audit| == |db.audit| + |hit| + 1
                 && after.audit[..|db.audit|] == db.audit
                 && (forall q :: q in hit ==> OverriddenBy(actor, q, db.passes[q].status) in after.audit[|db.audit|..])
                 && after.audit[|after.audit| - 1] == OverrideCreated(actor, id, |hit|, pass.aos)
  {
    if OverrideAccepted(db.passes, id, pass) {
      OverrideKeepsLegal(db.passes, id, pass, actor, at);
      OverrideAudited(db, id, pass, actor, at, order);
    }
  }

  /** The refusal is real: with nothing else wrong, exactly an executing pass in the way refuses the override. */
  lemma RefusedExactlyByExecuting(t: Table, id: PassId, pass: Pass)
    requires id !in t && pass.status == PendingApproval && RowChecks(pass)
    ensures !OverrideAccepted(t, id, pass) <==>
              exists q :: q in Conflicts(t, pass.station, pass.reserved) && t[q].status == Executing
  {
  }

  /** One record for each pass in the way, and one for the override itself. */
  lemma OverrideAudited(db: Db, id: PassId, pass: Pass, actor: UserId, at: Time, order: seq<PassId>)
    requires ListsConflicts(db.passes, pass, order) && OverrideAccepted(db.passes, id, pass)
    ensures var audit := Next(db, RootOverride(id, pass, actor, at, order)).audit;
            var hit := Conflicts(db.passes, pass.station, pass.reserved);
            && |audit| == |db.audit| + |hit| + 1
            && audit[..|db.audit|] == db.audit
            && (forall q :: q in hit ==> OverriddenBy(actor, q, db.passes[q].status) in audit[|db.audit|..])
            && audit[|audit| - 1] == OverrideCreated(actor, id, |hit|, pass.aos)
  {
    var audit := Next(db, RootOverride(id, pass, actor, at, order)).audit;
    ListsLength(order, Conflicts(db.passes, pass.station, pass.reserved));
    var last := OverrideCreated(actor, id, |order|, pass.aos);
    AuditsListed(db.passes, order, actor, last);
    assert audit[|db.audit|..] == OverrideAudits(db.passes, order, actor) + [last];
  }

  lemma AuditsListed(t: Table, order: seq<PassId>, actor: UserId, last: Audit)
    requires forall q :: q in order ==> q in t
    ensures forall q :: q in order ==> OverriddenBy(actor, q, t[q].status) in OverrideAudits(t, order, actor) + [last]
  {
    var added := OverrideAudits(t, order, actor) + [last];
    forall q | q in order ensures OverriddenBy(actor, q, t[q].status) in added {
      var k :| 0 <= k < |order| && order[k] == q;
      assert added[k] == OverriddenBy(actor, q, t[q].status);
    }
  }
}
