/**
  Server and Worker together: scheduling on one side, execution on the other, and between them a network that
  delays, loses, repeats and reorders sync answers, reports and acknowledgements.
 */
module Protocol {
  import opened Basics
  import opened WorkerState
  import opened WorkerCore
  import PassTable
  import Scheduling

  /** SHA-256, over the encoding of a plan and over text. Nothing is assumed of it here. */
  datatype Hashes = Hashes(ofPlan: PlanBody -> Digest, ofText: string -> Digest)

  /** What a plan's generation is computed from. */
  datatype PlanBody = PlanBody(passId: PassId, version: int, encoded: string, aos: Time, los: Time)

  function BodyOf(plan: Plan): PlanBody {
    PlanBody(plan.passId, plan.version, plan.encoded, plan.aos, plan.los)
  }

  /** The text hashed for a whole set: the plans' generations, one after another. */
  function GenerationText(plans: seq<Plan>): string {
    if plans == [] then "" else GenerationText(plans[..|plans| - 1]) + plans[|plans| - 1].generation.hex
  }

  function SetGeneration(h: Hashes, plans: seq<Plan>): Digest {
    h.ofText(GenerationText(plans))
  }

  datatype Response = Response(plans: seq<Plan>, generation: Digest)

  /** One history record on the wire. */
  datatype Report = Report(entry: nat, passId: PassId, state: ExecutionState)

  datatype Batch = Batch(entries: set<nat>)

  datatype System = System(
    now: Time,
    db: Scheduling.Db,
    planned: map<PassId, Plan>,      // the Server's pass_plans table
    core: Core,                      // the Worker
    lastSync: Option<Response>,      // the answer the Worker applied last
    responses: set<Response>,        // sync answers ever sent
    reports: set<Report>,            // reports ever sent
    settled: set<nat>,               // history records the Server has processed
    acks: set<Batch>)                // acknowledgements ever sent

  datatype Step =
    | Clock(t: Time)
    | Schedule(op: Scheduling.Op)
    | StorePlan(plan: Plan)
    | AnswerSync(listing: seq<Plan>)
    | TakeSync(response: Response)
    | SendReports(entries: set<nat>)
    | ProcessReport(report: Report)
    | AckReports(batch: Batch)
    | TakeAck(batch: Batch)
    | Execute(step: WorkerCore.Step)

  const START := System(0, Scheduling.EMPTY, map[], WorkerCore.INIT, None, {}, {}, {}, {})

  /** Worker states that mean an outcome to the Server; every other report is skipped. */
  function StatusFor(state: ExecutionState): Option<PassTable.Status> {
    match state
    case Completed => Some(PassTable.Completed)
    case Failed => Some(PassTable.Failed)
    case Missed => Some(PassTable.Missed)
    case _ => None
  }

  /** A pass the Server wants executed: approved, planned and not past. */
  predicate Desired(s: System, station: PassTable.StationId, p: PassId) {
    && p in s.db.passes && p in s.planned
    && s.db.passes[p].station == station
    && s.db.passes[p].status == PassTable.Approved
    && s.db.passes[p].los >= s.now
  }

  /** `listing` is the station's desired state as the query returns it: each plan once, in order of rise. */
  ghost predicate IsListing(s: System, station: PassTable.StationId, listing: seq<Plan>) {
    && (forall k :: 0 <= k < |listing| ==> Desired(s, station, listing[k].passId) && s.planned[listing[k].passId] == listing[k])
    && (forall p :: Desired(s, station, p) ==> exists k :: 0 <= k < |listing| && listing[k].passId == p)
    && (forall i, j :: 0 <= i < j < |listing| ==> listing[i].passId != listing[j].passId)
    && (forall i, j :: 0 <= i < j < |listing| ==> s.db.passes[listing[i].passId].aos <= s.db.passes[listing[j].passId].aos)
  }

  predicate SupportedVersion(plan: Plan) {
    1 <= plan.version <= 1
  }

  /** The Worker skips plans of a version it does not know. */
  function Supported(plans: seq<Plan>): (kept: seq<Plan>)
    ensures forall plan :: plan in kept <==> plan in plans && SupportedVersion(plan)
  {
    if plans == [] then []
    else
      var init, last := plans[..|plans| - 1], plans[|plans| - 1];
      assert plans == init + [last];
      if SupportedVersion(last) then Supported(init) + [last] else Supported(init)
  }

  ghost predicate Executor(step: WorkerCore.Step) {
    !step.ApplySync? && !step.MarkSynced?
  }

  function ProcessedDb(db: Scheduling.Db, r: Report): Scheduling.Db {
    match StatusFor(r.state)
    case Some(status) => Scheduling.Written(db, PassTable.SetOutcome(db.passes, r.passId, status))
    case None => db
  }

  ghost function Next(h: Hashes, station: PassTable.StationId, s: System, step: Step): System {
    match step
    case Clock(t) => if t >= s.now then s.(now := t) else s
    case Schedule(op) => if op.ReportOp? then s else s.(db := Scheduling.Next(s.db, op))
    case StorePlan(plan) =>
      if plan.passId in s.db.passes && plan.generation == h.ofPlan(BodyOf(plan))
         && plan.aos == s.db.passes[plan.passId].aos && plan.los == s.db.passes[plan.passId].los
         && (plan.passId in s.planned ==> s.planned[plan.passId].generation != plan.generation)
      then s.(planned := s.planned[plan.passId := plan]) else s
    case AnswerSync(listing) =>
      if IsListing(s, station, listing) then s.(responses := s.responses + {Response(listing, SetGeneration(h, listing))}) else s
    case TakeSync(r) =>
      if r in s.responses && !s.core.executor.Down?
      then s.(core := WorkerCore.Next(s.core, Event(s.now, ApplySync(Supported(r.plans), r.generation))), lastSync := Some(r)) else s
    case SendReports(entries) =>
      if (forall i :: i in entries ==> i < |s.core.store.history| && !s.core.store.history[i].synced) && !s.core.executor.Down?
      then s.(reports := s.reports + (set i | i in entries :: Report(i, s.core.store.history[i].passId, s.core.store.history[i].state))) else s
    case ProcessReport(r) =>
      if r in s.reports then s.(db := ProcessedDb(s.db, r), settled := s.settled + {r.entry}) else s
    case AckReports(batch) => if batch.entries <= s.settled then s.(acks := s.acks + {batch}) else s
    case TakeAck(batch) =>
      if batch in s.acks then s.(core := WorkerCore.Next(s.core, Event(s.now, MarkSynced(batch.entries)))) else s
    case Execute(step) =>
      if Executor(step) then s.(core := WorkerCore.Next(s.core, Event(s.now, step))) else s
  }

  ghost function RunFrom(h: Hashes, station: PassTable.StationId, s: System, steps: seq<Step>): System {
    if steps == [] then s else Next(h, station, RunFrom(h, station, s, steps[..|steps| - 1]), steps[|steps| - 1])
  }

  ghost function Run(h: Hashes, station: PassTable.StationId, steps: seq<Step>): System {
    RunFrom(h, station, START, steps)
  }

  // ---- Both sides keep their own invariants ----

  ghost predicate BothOk(s: System) {
    CoreInv(s.core) && Scheduling.Invariant(s.db.passes)
  }

  lemma ProcessedIsReportOp(db: Scheduling.Db, r: Report)
    ensures StatusFor(r.state).Some? ==> ProcessedDb(db, r) == Scheduling.Next(db, Scheduling.ReportOp(r.passId, StatusFor(r.state).value))
  {
  }

  /** What a step does to the passes is one scheduling step, or nothing. */
  lemma DbStep(h: Hashes, station: PassTable.StationId, s: System, step: Step) returns (op: Option<Scheduling.Op>)
    ensures Next(h, station, s, step).db == (if op.Some? then Scheduling.Next(s.db, op.value) else s.db)
    ensures op.Some? && op.value.ReportOp? ==>
              step.ProcessReport? && step.report in s.reports && op.value.id == step.report.passId
              && StatusFor(step.report.state) == Some(op.value.outcome)
  {
    op := None;
    if step.Schedule? && !step.op.ReportOp? { op := Some(step.op); }
    if step.ProcessReport? && step.report in s.reports && StatusFor(step.report.state).Some? {
      ProcessedIsReportOp(s.db, step.report);
      op := Some(Scheduling.ReportOp(step.report.passId, StatusFor(step.report.state).value));
    }
  }

  /** What a step does to the Worker is one event, or nothing. */
  lemma CoreStep(h: Hashes, station: PassTable.StationId, s: System, step: Step) returns (e: Option<Event>)
    ensures Next(h, station, s, step).core == (if e.Some? then WorkerCore.Next(s.core, e.value) else s.core)
    ensures e.Some? && e.value.step.MarkSynced? ==> step.TakeAck? && step.batch in s.acks && e.value.step.entries == step.batch.entries
    ensures e.Some? && e.value.step.ApplySync? ==>
              && step.TakeSync? && step.response in s.responses && !s.core.executor.Down?
              && e.value == Event(s.now, ApplySync(Supported(step.response.plans), step.response.generation))
              && Next(h, station, s, step).lastSync == Some(step.response)
    ensures !(e.Some? && e.value.step.ApplySync?) ==> Next(h, station, s, step).lastSync == s.lastSync
    ensures forall r :: r in s.responses ==> r in Next(h, station, s, step).responses
  {
    e := None;
    if step.TakeSync? && step.response in s.responses && !s.core.executor.Down? {
      e := Some(Event(s.now, ApplySync(Supported(step.response.plans), step.response.generation)));
    }
    if step.TakeAck? && step.batch in s.acks { e := Some(Event(s.now, MarkSynced(step.batch.entries))); }
    if step.Execute? && Executor(step.step) { e := Some(Event(s.now, step.step)); }
  }

  lemma StepBoth(h: Hashes, station: PassTable.StationId, s: System, step: Step)
    requires BothOk(s)
    ensures BothOk(Next(h, station, s, step))
  {
    var op := DbStep(h, station, s, step);
    if op.Some? { Scheduling.StepKeepsInvariant(s.db, op.value); }
    var e := CoreStep(h, station, s, step);
    if e.Some? { StepKeepsCore(s.core, e.value); }
  }

  // ---- History only grows ----

  ghost predicate Extends(before: seq<Entry>, after: seq<Entry>) {
    && |before| <= |after|
    && (forall i :: 0 <= i < |before| ==> after[i].passId == before[i].passId && after[i].state == before[i].state)
    && (forall i :: |before| <= i < |after| ==> !after[i].synced)
  }

  lemma EventExtends(c: Core, e: Event)
    ensures Extends(c.store.history, WorkerCore.Next(c, e).store.history)
    ensures !e.step.MarkSynced? ==> WorkerCore.Next(c, e).store.history[..|c.store.history|] == c.store.history
  {
  }

  // ---- Outcome agreement ----

  ghost predicate ReportsTrue(s: System) {
    forall r :: r in s.reports ==>
      && r.entry < |s.core.store.history|
      && s.core.store.history[r.entry].passId == r.passId
      && s.core.store.history[r.entry].state == r.state
  }

  ghost predicate ReportedAs(s: System, p: PassId, status: PassTable.Status) {
    exists i :: 0 <= i < |s.core.store.history| && s.core.store.history[i].passId == p && StatusFor(s.core.store.history[i].state) == Some(status)
  }

  ghost predicate OutcomesReported(s: System) {
    forall p :: p in s.db.passes && PassTable.IsOutcome(s.db.passes[p].status) ==> ReportedAs(s, p, s.db.passes[p].status)
  }

  ghost predicate ReportInv(s: System) {
    BothOk(s) && ReportsTrue(s) && OutcomesReported(s)
  }

  lemma StepReportsTrue(h: Hashes, station: PassTable.StationId, s: System, step: Step)
    requires ReportsTrue(s)
    ensures ReportsTrue(Next(h, station, s, step))
  {
    var e := CoreStep(h, station, s, step);
    if e.Some? { EventExtends(s.core, e.value); }
  }

  lemma ReportedStays(h: Hashes, station: PassTable.StationId, s: System, step: Step, p: PassId, status: PassTable.Status)
    requires ReportedAs(s, p, status)
    ensures ReportedAs(Next(h, station, s, step), p, status)
  {
    var i :| 0 <= i < |s.core.store.history| && s.core.store.history[i].passId == p && StatusFor(s.core.store.history[i].state) == Some(status);
    var e := CoreStep(h, station, s, step);
    if e.Some? { EventExtends(s.core, e.value); }
    assert Next(h, station, s, step).core.store.history[i].passId == p;
  }

  lemma StepOutcomes(h: Hashes, station: PassTable.StationId, s: System, step: Step, p: PassId)
    requires ReportInv(s)
    requires p in Next(h, station, s, step).db.passes && PassTable.IsOutcome(Next(h, station, s, step).db.passes[p].status)
    ensures ReportedAs(Next(h, station, s, step), p, Next(h, station, s, step).db.passes[p].status)
  {
    var status := Next(h, station, s, step).db.passes[p].status;
    var op := DbStep(h, station, s, step);
    if op.Some? && p !in s.db.passes {
      Scheduling.StepAdds(s.db, op.value, p);
    } else if s.db.passes[p].status != status {
      OnlyReportsDecide(s.db, op.value, p);
      var r := step.report;
      assert s.core.store.history[r.entry].passId == p;
    }
    ReportedStays(h, station, s, step, p, status);
  }

  /** No write but a report gives a pass an outcome, and it gives the reported one. */
  lemma OnlyReportsDecide(db: Scheduling.Db, op: Scheduling.Op, p: PassId)
    requires p in db.passes && p in Scheduling.Next(db, op).passes
    requires PassTable.IsOutcome(Scheduling.Next(db, op).passes[p].status)
    requires db.passes[p].status != Scheduling.Next(db, op).passes[p].status
    ensures op.ReportOp? && op.id == p && op.outcome == Scheduling.Next(db, op).passes[p].status
  {
  }

  lemma {:induction false} RunReportInv(h: Hashes, station: PassTable.StationId, steps: seq<Step>)
    ensures ReportInv(Run(h, station, steps))
  {
    if steps != [] {
      var init, last := steps[..|steps| - 1], steps[|steps| - 1];
      RunReportInv(h, station, init);
      var s := Run(h, station, init);
      StepBoth(h, station, s, last);
      StepReportsTrue(h, station, s, last);
      forall p | p in Next(h, station, s, last).db.passes && PassTable.IsOutcome(Next(h, station, s, last).db.passes[p].status)
        ensures ReportedAs(Next(h, station, s, last), p, Next(h, station, s, last).db.passes[p].status)
      {
        StepOutcomes(h, station, s, last, p);
      }
    }
  }

  /** Main result: whenever the Server says completed, failed or missed, the Worker's row is in exactly that state. */
  lemma OutcomeAgreement(h: Hashes, station: PassTable.StationId, steps: seq<Step>, p: PassId)
    ensures var s := Run(h, station, steps);
            var (passes, rows) := (s.db.passes, s.core.store.plans);
            p in passes ==>
              && (passes[p].status == PassTable.Completed ==> p in rows && rows[p].state == Completed)
              && (passes[p].status == PassTable.Failed ==> p in rows && rows[p].state == Failed)
              && (passes[p].status == PassTable.Missed ==> p in rows && rows[p].state == Missed)
  {
    RunReportInv(h, station, steps);
  }

  /** The first report wins: from then on no step of any kind, replays included, changes the pass's status. */
  lemma {:induction false} FirstReportWins(h: Hashes, station: PassTable.StationId, s: System, steps: seq<Step>, p: PassId)
    requires BothOk(s)
    requires p in s.db.passes && PassTable.IsTerminal(s.db.passes[p].status)
    ensures var late := RunFrom(h, station, s, steps);
            BothOk(late) && p in late.db.passes && late.db.passes[p].status == s.db.passes[p].status
  {
    if steps != [] {
      var init, last := steps[..|steps| - 1], steps[|steps| - 1];
      FirstReportWins(h, station, s, init, p);
      var mid := RunFrom(h, station, s, init);
      StepBoth(h, station, mid, last);
      var op := DbStep(h, station, mid, last);
      if op.Some? {
        Scheduling.StepEvolves(mid.db, op.value, p);
        if Next(h, station, mid, last).db.passes[p].status != mid.db.passes[p].status {
          Scheduling.LeadsFromLive(mid.db.passes[p].status, Next(h, station, mid, last).db.passes[p].status);
        }
      }
    }
  }

  // ---- An acknowledged outcome is settled ----

  /** The Server has at least approved the pass. */
  ghost predicate Known(s: System, p: PassId) {
    p in s.db.passes && s.db.passes[p].status != PassTable.PendingApproval
  }

  ghost predicate KnownInv(s: System) {
    && (forall p :: p in s.core.store.plans ==> Known(s, p))
    && (forall r, k :: r in s.responses && 0 <= k < |r.plans| ==> Known(s, r.plans[k].passId))
  }

  ghost predicate Over(s: System, p: PassId) {
    p in s.db.passes && PassTable.IsTerminal(s.db.passes[p].status)
  }

  ghost predicate SettledInv(s: System) {
    && (forall i :: i in s.settled ==>
          i < |s.core.store.history| && (s.core.store.history[i].state.Outcome() ==> Over(s, s.core.store.history[i].passId)))
    && (forall b, i :: b in s.acks && i in b.entries ==> i in s.settled)
    && (forall i :: 0 <= i < |s.core.store.history| && s.core.store.history[i].synced ==> i in s.settled)
  }

  lemma StatusMoves(h: Hashes, station: PassTable.StationId, s: System, step: Step, p: PassId)
    requires BothOk(s)
    ensures Known(s, p) ==> Known(Next(h, station, s, step), p)
    ensures Over(s, p) ==> Over(Next(h, station, s, step), p)
  {
    var op := DbStep(h, station, s, step);
    if op.Some? && p in s.db.passes {
      Scheduling.StepEvolves(s.db, op.value, p);
      if Next(h, station, s, step).db.passes[p].status != s.db.passes[p].status {
        Scheduling.LeadsFromLive(s.db.passes[p].status, Next(h, station, s, step).db.passes[p].status);
      }
    }
  }

  /** Only a resync adds rows. */
  lemma NewRowsAreIncoming(c: Core, e: Event, p: PassId)
    requires p in WorkerCore.Next(c, e).store.plans && p !in c.store.plans
    ensures e.step.ApplySync? && p in Incoming(e.step.plans)
  {
  }

  /** Rows come from answers, and answers list passes that were approved when they were sent. */
  lemma RowsKnown(s: System, after: System, e: Event, p: PassId)
    requires KnownInv(s)
    requires forall q :: Known(s, q) ==> Known(after, q)
    requires after.core == WorkerCore.Next(s.core, e)
    requires e.step.ApplySync? ==> exists r :: r in s.responses && e.step.plans == Supported(r.plans)
    requires p in after.core.store.plans
    ensures Known(after, p)
  {
    if p !in s.core.store.plans {
      NewRowsAreIncoming(s.core, e, p);
      var r :| r in s.responses && e.step.plans == Supported(r.plans);
      var k :| 0 <= k < |r.plans| && r.plans[k] == Incoming(e.step.plans)[p];
      assert Known(s, r.plans[k].passId);
    }
  }

  lemma StepKnown(h: Hashes, station: PassTable.StationId, s: System, step: Step)
    requires BothOk(s) && KnownInv(s)
    ensures KnownInv(Next(h, station, s, step))
  {
    var after := Next(h, station, s, step);
    forall p | Known(s, p) ensures Known(after, p) { StatusMoves(h, station, s, step, p); }
    var e := CoreStep(h, station, s, step);
    forall p | p in after.core.store.plans ensures Known(after, p) {
      if e.Some? { RowsKnown(s, after, e.value, p); }
    }
    AnswersKnown(h, station, s, step);
  }

  lemma AnswersKnown(h: Hashes, station: PassTable.StationId, s: System, step: Step)
    requires forall r, k :: r in s.responses && 0 <= k < |r.plans| ==> Known(s, r.plans[k].passId)
    requires forall p :: Known(s, p) ==> Known(Next(h, station, s, step), p)
    ensures forall r, k :: r in Next(h, station, s, step).responses && 0 <= k < |r.plans| ==> Known(Next(h, station, s, step), r.plans[k].passId)
  {
    var after := Next(h, station, s, step);
    if step.AnswerSync? {
      forall k | 0 <= k < |step.listing| && IsListing(s, station, step.listing) ensures Known(after, step.listing[k].passId) {
        assert Known(s, step.listing[k].passId);
      }
    } else {
      assert after.responses == s.responses;
    }
  }

  lemma ReportSettles(s: System, r: Report)
    requires ReportInv(s) && KnownInv(s)
    requires r in s.reports && StatusFor(r.state).Some?
    ensures r.passId in s.db.passes && PassTable.IsTerminal(ProcessedDb(s.db, r).passes[r.passId].status)
  {
    assert s.core.store.history[r.entry].passId == r.passId;
    assert Known(s, r.passId);
    PassTable.LiveExactlyWhenNotTerminal(ProcessedDb(s.db, r).passes[r.passId].status);
  }

  /** Only an acknowledgement marks a record as delivered. */
  lemma MarksOnlyAcked(c: Core, e: Event, i: nat)
    requires i < |WorkerCore.Next(c, e).store.history| && WorkerCore.Next(c, e).store.history[i].synced
    ensures i < |c.store.history| && (c.store.history[i].synced || (e.step.MarkSynced? && i in e.step.entries))
  {
    EventExtends(c, e);
    var after := WorkerCore.Next(c, e).store.history;
    if !e.step.MarkSynced? && i < |c.store.history| {
      assert after[..|c.store.history|][i] == after[i];
    }
  }

  /** A record newly settled by this step is an old one, and its pass is over afterwards. */
  ghost predicate NewlySettled(s: System, after: System, i: nat) {
    i < |s.core.store.history| && (s.core.store.history[i].state.Outcome() ==> Over(after, s.core.store.history[i].passId))
  }

  lemma SettledKept(s: System, after: System, e: Option<Event>)
    requires SettledInv(s)
    requires after.core == (if e.Some? then WorkerCore.Next(s.core, e.value) else s.core)
    requires e.Some? && e.value.step.MarkSynced? ==> Batch(e.value.step.entries) in s.acks
    requires forall p :: Over(s, p) ==> Over(after, p)
    requires forall i :: i in s.settled ==> i in after.settled
    requires forall i :: i in after.settled ==> i in s.settled || NewlySettled(s, after, i)
    requires forall b, i :: b in after.acks && i in b.entries ==> i in s.settled
    ensures SettledInv(after)
  {
    if e.Some? { EventExtends(s.core, e.value); }
    forall i | 0 <= i < |after.core.store.history| && after.core.store.history[i].synced ensures i in after.settled {
      if e.Some? { MarksOnlyAcked(s.core, e.value, i); }
    }
  }

  lemma StepSettled(h: Hashes, station: PassTable.StationId, s: System, step: Step)
    requires ReportInv(s) && KnownInv(s) && SettledInv(s)
    ensures SettledInv(Next(h, station, s, step))
  {
    var after := Next(h, station, s, step);
    forall p | Over(s, p) ensures Over(after, p) { StatusMoves(h, station, s, step, p); }
    var e := CoreStep(h, station, s, step);
    assert e.Some? && e.value.step.MarkSynced? ==> step.batch == Batch(e.value.step.entries);
    SettledGrows(h, station, s, step);
    AcksSettled(h, station, s, step);
    SettledKept(s, after, e);
  }

  lemma SettledGrows(h: Hashes, station: PassTable.StationId, s: System, step: Step)
    requires ReportInv(s) && KnownInv(s)
    ensures var after := Next(h, station, s, step);
            && (forall i :: i in s.settled ==> i in after.settled)
            && (forall i :: i in after.settled ==> i in s.settled || NewlySettled(s, after, i))
  {
    var after := Next(h, station, s, step);
    if step.ProcessReport? && step.report in s.reports {
      if StatusFor(step.report.state).Some? { ReportSettles(s, step.report); }
      assert NewlySettled(s, after, step.report.entry);
    } else {
      assert after.settled == s.settled;
    }
  }

  lemma AcksSettled(h: Hashes, station: PassTable.StationId, s: System, step: Step)
    requires SettledInv(s)
    ensures forall b, i :: b in Next(h, station, s, step).acks && i in b.entries ==> i in s.settled
  {
  }

  lemma {:induction false} RunSettledInv(h: Hashes, station: PassTable.StationId, steps: seq<Step>)
    ensures var s := Run(h, station, steps); KnownInv(s) && SettledInv(s)
  {
    if steps != [] {
      var init, last := steps[..|steps| - 1], steps[|steps| - 1];
      RunSettledInv(h, station, init);
      RunReportInv(h, station, init);
      StepKnown(h, station, Run(h, station, init), last);
      StepSettled(h, station, Run(h, station, init), last);
    }
  }

  /**
    Main result: an outcome the Worker counts as delivered is one the Server has acted on. The pass is over there,
    and if it ended with an outcome at all, it is this one.
   */
  lemma AcknowledgedIsSettled(h: Hashes, station: PassTable.StationId, steps: seq<Step>, i: nat)
    requires var s := Run(h, station, steps);
             i < |s.core.store.history| && s.core.store.history[i].synced && s.core.store.history[i].state.Outcome()
    ensures var s := Run(h, station, steps);
            var entry := s.core.store.history[i];
            && entry.passId in s.db.passes
            && var status := s.db.passes[entry.passId].status;
               && status != PassTable.PendingApproval && status != PassTable.Approved && status != PassTable.Executing
               && (status == PassTable.Completed ==> entry.state == Completed)
               && (status == PassTable.Failed ==> entry.state == Failed)
               && (status == PassTable.Missed ==> entry.state == Missed)
  {
    RunSettledInv(h, station, steps);
    RunReportInv(h, station, steps);
    OutcomeAgreement(h, station, steps, Run(h, station, steps).core.store.history[i].passId);
  }

  // ---- Generation soundness ----

  ghost predicate Minted(h: Hashes, plan: Plan) {
    plan.generation == h.ofPlan(BodyOf(plan))
  }

  ghost predicate ResponseOk(h: Hashes, r: Response) {
    && r.generation == SetGeneration(h, r.plans)
    && (forall k :: 0 <= k < |r.plans| ==> Minted(h, r.plans[k]))
    && (forall i, j :: 0 <= i < j < |r.plans| ==> r.plans[i].passId != r.plans[j].passId)
  }

  ghost predicate PlansOk(h: Hashes, s: System) {
    && (forall p :: p in s.planned ==> s.planned[p].passId == p && Minted(h, s.planned[p]))
    && (forall r :: r in s.responses ==> ResponseOk(h, r))
  }

  /** The unfinished rows are those of the last answer applied, with its generations; the rest of that answer is finished. */
  ghost predicate FollowsAnswer(rows: Rows, plans: seq<Plan>) {
    && (forall p :: p in rows && !rows[p].state.Terminal() ==>
          exists k :: 0 <= k < |plans| && plans[k].passId == p && SupportedVersion(plans[k]) && plans[k].generation == rows[p].generation)
    && (forall k :: 0 <= k < |plans| && SupportedVersion(plans[k]) ==>
          && plans[k].passId in rows
          && (rows[plans[k].passId].state.Terminal() || rows[plans[k].passId].generation == plans[k].generation))
  }

  ghost predicate SyncInv(h: Hashes, s: System) {
    match s.lastSync
    case None => s.core.store.plans == map[] && s.core.store.generation == Digest("")
    case Some(r) => r in s.responses && s.core.store.generation == r.generation && FollowsAnswer(s.core.store.plans, r.plans)
  }

  lemma StepPlans(h: Hashes, station: PassTable.StationId, s: System, step: Step)
    requires PlansOk(h, s)
    ensures PlansOk(h, Next(h, station, s, step))
  {
  }

  /** Incoming plans with distinct ids are found under their own id. */
  lemma {:induction false} IncomingFinds(plans: seq<Plan>, plan: Plan)
    requires plan in plans
    requires forall a, b :: a in plans && b in plans && a.passId == b.passId ==> a == b
    ensures plan.passId in Incoming(plans) && Incoming(plans)[plan.passId] == plan
  {
    IncomingIds(plans);
    assert plan.passId in Incoming(plans);
  }

  lemma SyncFollows(h: Hashes, store: Store, r: Response, at: Time)
    requires ResponseOk(h, r)
    ensures FollowsAnswer(Reconcile(store, Supported(r.plans), r.generation, at).plans, r.plans)
  {
    var kept := Supported(r.plans);
    var incoming := Incoming(kept);
    var rows := Reconciled(store.plans, incoming, at);
    forall p | p in rows && !rows[p].state.Terminal()
      ensures exists k :: 0 <= k < |r.plans| && r.plans[k].passId == p && SupportedVersion(r.plans[k]) && r.plans[k].generation == rows[p].generation
    {
      ResyncSettles(store.plans, incoming, at, p);
      var k :| 0 <= k < |r.plans| && r.plans[k] == incoming[p];
    }
    forall k | 0 <= k < |r.plans| && SupportedVersion(r.plans[k])
      ensures r.plans[k].passId in rows
      ensures rows[r.plans[k].passId].state.Terminal() || rows[r.plans[k].passId].generation == r.plans[k].generation
    {
      IncomingFinds(kept, r.plans[k]);
      ResyncSettles(store.plans, incoming, at, r.plans[k].passId);
    }
  }

  /** Executing plans changes no generation and revives no row, so the table keeps following its answer. */
  lemma EventFollows(c: Core, e: Event, plans: seq<Plan>)
    requires CoreInv(c) && !e.step.ApplySync?
    requires FollowsAnswer(c.store.plans, plans)
    ensures FollowsAnswer(WorkerCore.Next(c, e).store.plans, plans)
    ensures WorkerCore.Next(c, e).store.generation == c.store.generation
  {
    var rows, after := c.store.plans, WorkerCore.Next(c, e).store.plans;
    forall p | p in rows
      ensures p in after && after[p].generation == rows[p].generation && (rows[p].state.Terminal() ==> after[p].state.Terminal())
    {
      if rows[p].state.Terminal() { StepKeepsFinished(c, e, p); }
    }
  }

  lemma StepSync(h: Hashes, station: PassTable.StationId, s: System, step: Step)
    requires BothOk(s) && PlansOk(h, s) && SyncInv(h, s)
    ensures SyncInv(h, Next(h, station, s, step))
  {
    var after := Next(h, station, s, step);
    var e := CoreStep(h, station, s, step);
    if e.Some? && e.value.step.ApplySync? {
      SyncFollows(h, s.core.store, step.response, s.now);
      assert after.core.store == Reconcile(s.core.store, Supported(step.response.plans), step.response.generation, s.now);
    } else {
      KeepsFollowing(h, s, after, e);
    }
  }

  lemma KeepsFollowing(h: Hashes, s: System, after: System, e: Option<Event>)
    requires BothOk(s) && SyncInv(h, s)
    requires after.core == (if e.Some? then WorkerCore.Next(s.core, e.value) else s.core)
    requires e.Some? ==> !e.value.step.ApplySync?
    requires after.lastSync == s.lastSync
    requires forall r :: r in s.responses ==> r in after.responses
    ensures SyncInv(h, after)
  {
    if e.Some? && s.lastSync.Some? {
      EventFollows(s.core, e.value, s.lastSync.value.plans);
    } else if e.Some? {
      EventOnEmpty(s.core, e.value);
    }
  }

  lemma EventOnEmpty(c: Core, e: Event)
    requires CoreInv(c) && c.store.plans == map[] && !e.step.ApplySync?
    ensures WorkerCore.Next(c, e).store.plans == map[] && WorkerCore.Next(c, e).store.generation == c.store.generation
  {
  }

  lemma {:induction false} RunSyncInv(h: Hashes, station: PassTable.StationId, steps: seq<Step>)
    ensures var s := Run(h, station, steps); PlansOk(h, s) && SyncInv(h, s)
  {
    if steps != [] {
      var init, last := steps[..|steps| - 1], steps[|steps| - 1];
      RunSyncInv(h, station, init);
      RunReportInv(h, station, init);
      StepPlans(h, station, Run(h, station, init), last);
      StepSync(h, station, Run(h, station, init), last);
    }
  }

  const DIGEST_LENGTH := 64

  ghost predicate FixedLength(h: Hashes) {
    (forall x :: |h.ofText(x).hex| == DIGEST_LENGTH) && (forall b :: |h.ofPlan(b).hex| == DIGEST_LENGTH)
  }

  /** Neither the two set texts nor any two of the plans involved collide under SHA-256. */
  ghost predicate NoCollision(h: Hashes, a: seq<Plan>, b: seq<Plan>) {
    && (h.ofText(GenerationText(a)) == h.ofText(GenerationText(b)) ==> GenerationText(a) == GenerationText(b))
    && (forall i, j :: 0 <= i < |a| && 0 <= j < |b| && h.ofPlan(BodyOf(a[i])) == h.ofPlan(BodyOf(b[j])) ==> BodyOf(a[i]) == BodyOf(b[j]))
  }

  lemma {:induction false} TextLength(plans: seq<Plan>)
    requires forall k :: 0 <= k < |plans| ==> |plans[k].generation.hex| == DIGEST_LENGTH
    ensures |GenerationText(plans)| == DIGEST_LENGTH * |plans|
  {
    if plans != [] { TextLength(plans[..|plans| - 1]); }
  }

  /** Concatenating digests of one length loses nothing. */
  lemma {:induction false} TextInjective(a: seq<Plan>, b: seq<Plan>)
    requires forall k :: 0 <= k < |a| ==> |a[k].generation.hex| == DIGEST_LENGTH
    requires forall k :: 0 <= k < |b| ==> |b[k].generation.hex| == DIGEST_LENGTH
    requires GenerationText(a) == GenerationText(b)
    ensures |a| == |b| && forall k :: 0 <= k < |a| ==> a[k].generation == b[k].generation
    decreases |a|
  {
    TextLength(a);
    TextLength(b);
    if a != [] {
      var aInit, bInit := a[..|a| - 1], b[..|b| - 1];
      TextLength(aInit);
      TextLength(bInit);
      var text, cut := GenerationText(a), DIGEST_LENGTH * (|a| - 1);
      assert text[..cut] == GenerationText(aInit) && text[..cut] == GenerationText(bInit);
      assert text[cut..] == a[|a| - 1].generation.hex && text[cut..] == b[|b| - 1].generation.hex;
      TextInjective(aInit, bInit);
      forall k | 0 <= k < |a| ensures a[k].generation == b[k].generation {
        if k < |a| - 1 { assert a[k] == aInit[k] && b[k] == bInit[k]; }
      }
    }
  }

  /** Equal set generations of minted plans mean equal sets. */
  lemma SetGenerationInjective(h: Hashes, a: seq<Plan>, b: seq<Plan>)
    requires FixedLength(h) && NoCollision(h, a, b)
    requires forall k :: 0 <= k < |a| ==> Minted(h, a[k])
    requires forall k :: 0 <= k < |b| ==> Minted(h, b[k])
    ensures SetGeneration(h, a) == SetGeneration(h, b) <==> a == b
  {
    if SetGeneration(h, a) == SetGeneration(h, b) {
      TextInjective(a, b);
      forall k | 0 <= k < |a| ensures a[k] == b[k] {
        assert a[k].generation == b[k].generation;
      }
    }
  }

  /**
    Main result: when a heartbeat finds the Worker's generation current, every unfinished plan it holds is desired by the
    Server at that moment with the same generation, and every desired plan of a known version is there or already finished.
   */
  lemma GenerationSoundness(h: Hashes, station: PassTable.StationId, steps: seq<Step>, listing: seq<Plan>)
    requires FixedLength(h)
    requires IsListing(Run(h, station, steps), station, listing)
    requires SetGeneration(h, listing) == Run(h, station, steps).core.store.generation
    requires var s := Run(h, station, steps); s.lastSync.Some? ==> NoCollision(h, s.lastSync.value.plans, listing)
    ensures var s := Run(h, station, steps);
            var rows := s.core.store.plans;
            && (forall p :: p in rows && !rows[p].state.Terminal() ==>
                  && p in s.db.passes && p in s.planned && s.planned[p].generation == rows[p].generation
                  && s.db.passes[p].station == station && s.db.passes[p].status == PassTable.Approved
                  && s.now <= s.db.passes[p].los)
            && (forall p :: p in s.db.passes && p in s.planned && s.planned[p].version == 1
                            && s.db.passes[p].station == station && s.db.passes[p].status == PassTable.Approved
                            && s.now <= s.db.passes[p].los ==>
                  p in rows && (rows[p].state.Terminal() || rows[p].generation == s.planned[p].generation))
  {
    RunSyncInv(h, station, steps);
    AnswerIsListing(h, station, Run(h, station, steps), listing);
    CurrentIsSound(h, station, Run(h, station, steps), listing);
    CurrentIsComplete(h, station, Run(h, station, steps), listing);
  }

  /** With equal generations the answer applied last is the present listing. */
  lemma AnswerIsListing(h: Hashes, station: PassTable.StationId, s: System, listing: seq<Plan>)
    requires FixedLength(h) && PlansOk(h, s) && SyncInv(h, s) && IsListing(s, station, listing)
    requires SetGeneration(h, listing) == s.core.store.generation
    requires s.lastSync.Some? ==> NoCollision(h, s.lastSync.value.plans, listing)
    ensures FollowsAnswer(s.core.store.plans, listing)
  {
    assert |SetGeneration(h, listing).hex| == DIGEST_LENGTH;
    if s.lastSync.Some? {
      SetGenerationInjective(h, s.lastSync.value.plans, listing);
    }
  }

  lemma CurrentIsSound(h: Hashes, station: PassTable.StationId, s: System, listing: seq<Plan>)
    requires IsListing(s, station, listing) && FollowsAnswer(s.core.store.plans, listing)
    ensures var rows := s.core.store.plans;
            forall p :: p in rows && !rows[p].state.Terminal() ==>
              && p in s.db.passes && p in s.planned && s.planned[p].generation == rows[p].generation
              && s.db.passes[p].station == station && s.db.passes[p].status == PassTable.Approved
              && s.now <= s.db.passes[p].los
  {
  }

  lemma CurrentIsComplete(h: Hashes, station: PassTable.StationId, s: System, listing: seq<Plan>)
    requires IsListing(s, station, listing) && FollowsAnswer(s.core.store.plans, listing)
    ensures var rows := s.core.store.plans;
            forall p :: p in s.db.passes && p in s.planned && s.planned[p].version == 1
                        && s.db.passes[p].station == station && s.db.passes[p].status == PassTable.Approved
                        && s.now <= s.db.passes[p].los ==>
              p in rows && (rows[p].state.Terminal() || rows[p].generation == s.planned[p].generation)
  {
    var rows := s.core.store.plans;
    forall p | p in s.db.passes && p in s.planned && s.planned[p].version == 1
               && s.db.passes[p].station == station && s.db.passes[p].status == PassTable.Approved
               && s.now <= s.db.passes[p].los
      ensures p in rows && (rows[p].state.Terminal() || rows[p].generation == s.planned[p].generation)
    {
      assert Desired(s, station, p);
      var k :| 0 <= k < |listing| && listing[k].passId == p;
      assert SupportedVersion(listing[k]);
    }
  }

  // ---- The generation of a row vouches for the plan it holds ----

  function RowBody(p: PassId, row: Row): PlanBody {
    PlanBody(p, row.version, row.encoded, row.aos, row.los)
  }

  /** Every row is of the one known version, and its generation is the digest of exactly the plan it holds. */
  ghost predicate RowsMinted(h: Hashes, rows: Rows) {
    forall p :: p in rows ==> rows[p].version == 1 && h.ofPlan(RowBody(p, rows[p])) == rows[p].generation
  }

  lemma ResyncMints(h: Hashes, rows: Rows, plans: seq<Plan>, at: Time)
    requires RowsMinted(h, rows) && forall plan :: plan in plans ==> Minted(h, plan) && plan.version == 1
    ensures RowsMinted(h, Reconciled(rows, Incoming(plans), at))
  {
    var after := Reconciled(rows, Incoming(plans), at);
    forall p | p in after ensures after[p].version == 1 && h.ofPlan(RowBody(p, after[p])) == after[p].generation {
      if p in Incoming(plans) { assert Minted(h, Incoming(plans)[p]); }
    }
  }

  lemma EventMints(h: Hashes, c: Core, e: Event)
    requires RowsMinted(h, c.store.plans) && !e.step.ApplySync?
    ensures RowsMinted(h, WorkerCore.Next(c, e).store.plans)
  {
    var rows, after := c.store.plans, WorkerCore.Next(c, e).store.plans;
    forall p | p in after ensures p in rows && RowBody(p, after[p]) == RowBody(p, rows[p]) && after[p].generation == rows[p].generation {
      if p !in rows { NewRowsAreIncoming(c, e, p); }
    }
  }

  lemma StepMints(h: Hashes, station: PassTable.StationId, s: System, step: Step)
    requires PlansOk(h, s) && RowsMinted(h, s.core.store.plans)
    ensures RowsMinted(h, Next(h, station, s, step).core.store.plans)
  {
    var e := CoreStep(h, station, s, step);
    if e.Some? && e.value.step.ApplySync? {
      var plans := Supported(step.response.plans);
      forall plan | plan in plans ensures Minted(h, plan) && plan.version == 1 {
        var k :| 0 <= k < |step.response.plans| && step.response.plans[k] == plan;
      }
      ResyncMints(h, s.core.store.plans, plans, s.now);
    } else if e.Some? {
      EventMints(h, s.core, e.value);
    }
  }

  /** Main result: in every run, whatever was replaced, kept or executed, a row never holds one plan under the generation
      of another. */
  lemma {:induction false} RunMints(h: Hashes, station: PassTable.StationId, steps: seq<Step>)
    ensures RowsMinted(h, Run(h, station, steps).core.store.plans)
  {
    if steps != [] {
      var init, last := steps[..|steps| - 1], steps[|steps| - 1];
      RunMints(h, station, init);
      RunSyncInv(h, station, init);
      StepMints(h, station, Run(h, station, init), last);
    }
  }

  /** No row and the Server's plan for it collide under SHA-256. */
  ghost predicate ToldApart(h: Hashes, rows: Rows, planned: map<PassId, Plan>) {
    forall p :: p in rows && p in planned && h.ofPlan(RowBody(p, rows[p])) == h.ofPlan(BodyOf(planned[p])) ==>
      RowBody(p, rows[p]) == BodyOf(planned[p])
  }

  /** Main result: barring a collision, when a heartbeat finds the state current, every unfinished row holds exactly the
      plan the Server has on record: its version, its text and its times. */
  lemma PlanSoundness(h: Hashes, station: PassTable.StationId, steps: seq<Step>, listing: seq<Plan>)
    requires FixedLength(h)
    requires IsListing(Run(h, station, steps), station, listing)
    requires SetGeneration(h, listing) == Run(h, station, steps).core.store.generation
    requires var s := Run(h, station, steps); s.lastSync.Some? ==> NoCollision(h, s.lastSync.value.plans, listing)
    requires ToldApart(h, Run(h, station, steps).core.store.plans, Run(h, station, steps).planned)
    ensures var s := Run(h, station, steps);
            var rows := s.core.store.plans;
            forall p :: p in rows && !rows[p].state.Terminal() ==>
              && p in s.planned
              && rows[p].version == s.planned[p].version && rows[p].encoded == s.planned[p].encoded
              && rows[p].aos == s.planned[p].aos && rows[p].los == s.planned[p].los
  {
    var s := Run(h, station, steps);
    GenerationSoundness(h, station, steps, listing);
    RunMints(h, station, steps);
    RunSyncInv(h, station, steps);
    forall p | p in s.core.store.plans && !s.core.store.plans[p].state.Terminal()
      ensures p in s.planned && RowBody(p, s.core.store.plans[p]) == BodyOf(s.planned[p])
    {
      SamePlan(h, s.core.store.plans, s.planned, p);
    }
  }

  lemma SamePlan(h: Hashes, rows: Rows, planned: map<PassId, Plan>, p: PassId)
    requires RowsMinted(h, rows) && ToldApart(h, rows, planned)
    requires p in rows && p in planned && Minted(h, planned[p]) && planned[p].generation == rows[p].generation
    ensures RowBody(p, rows[p]) == BodyOf(planned[p])
  {
  }

  // ---- A round that gets through does its work ----

  /** A sync answered now and applied makes the Worker current: afterwards its unfinished plans are exactly desired ones. */
  lemma RoundCatchesUp(h: Hashes, station: PassTable.StationId, s: System, listing: seq<Plan>)
    requires PlansOk(h, s) && IsListing(s, station, listing) && !s.core.executor.Down?
    ensures var answered := Next(h, station, s, AnswerSync(listing));
            var after := Next(h, station, answered, TakeSync(Response(listing, SetGeneration(h, listing))));
            && after.core.store.generation == SetGeneration(h, listing)
            && FollowsAnswer(after.core.store.plans, listing) && IsListing(after, station, listing)
  {
    var r := Response(listing, SetGeneration(h, listing));
    var answered := Next(h, station, s, AnswerSync(listing));
    assert answered == s.(responses := s.responses + {r});
    StepPlans(h, station, s, AnswerSync(listing));
    SyncFollows(h, s.core.store, r, s.now);
    var after := Next(h, station, answered, TakeSync(r));
    assert after.core.store == Reconcile(s.core.store, Supported(listing), r.generation, s.now);
    forall p ensures Desired(after, station, p) <==> Desired(s, station, p) {
    }
  }

  /** As time goes on exactly the passes whose set is past leave the desired state. */
  lemma PastPassesLeave(h: Hashes, station: PassTable.StationId, s: System, t: Time, p: PassId)
    requires s.now <= t
    ensures var after := Next(h, station, s, Clock(t));
            Desired(after, station, p) <==>
              && p in s.db.passes && p in s.planned && s.db.passes[p].station == station
              && s.db.passes[p].status == PassTable.Approved && t <= s.db.passes[p].los
  {
  }

  /** One record sent, processed, acknowledged and the answer received. */
  ghost function Delivered(h: Hashes, station: PassTable.StationId, s: System, i: nat): System
    requires i < |s.core.store.history|
  {
    var entry := s.core.store.history[i];
    var sent := Next(h, station, s, SendReports({i}));
    var processed := Next(h, station, sent, ProcessReport(Report(i, entry.passId, entry.state)));
    var acked := Next(h, station, processed, AckReports(Batch({i})));
    Next(h, station, acked, TakeAck(Batch({i})))
  }

  /** A round of reporting that gets through marks the record delivered, and an awaiting pass takes exactly its outcome. */
  lemma RoundDelivers(h: Hashes, station: PassTable.StationId, s: System, i: nat)
    requires i < |s.core.store.history| && !s.core.store.history[i].synced && !s.core.executor.Down?
    ensures var after := Delivered(h, station, s, i);
            var entry := s.core.store.history[i];
            && |after.core.store.history| == |s.core.store.history|
            && after.core.store.history[i] == entry.(synced := true)
            && (entry.passId in s.db.passes && s.db.passes[entry.passId].status == PassTable.Approved ==>
                  && entry.passId in after.db.passes
                  && var status := after.db.passes[entry.passId].status;
                     && (entry.state == Completed ==> status == PassTable.Completed)
                     && (entry.state == Failed ==> status == PassTable.Failed)
                     && (entry.state == Missed ==> status == PassTable.Missed))
  {
    var entry := s.core.store.history[i];
    var report := Report(i, entry.passId, entry.state);
    var sent := Next(h, station, s, SendReports({i}));
    assert report in sent.reports && sent.core == s.core && sent.db == s.db;
    var processed := Next(h, station, sent, ProcessReport(report));
    assert i in processed.settled && processed.core == s.core && processed.db == ProcessedDb(s.db, report);
    var acked := Next(h, station, processed, AckReports(Batch({i})));
    assert Batch({i}) in acked.acks && acked.core == s.core && acked.db == processed.db;
  }
}
