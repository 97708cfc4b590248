/**
  Server and execution loop joined: whatever the protocol does, the plans waiting on the Worker form a timetable the loop
  can keep.
 */
module Timetable {
  import opened Basics
  import opened WorkerState
  import opened Protocol
  import opened ExecutionLoop
  import WorkerCore
  import PassTable
  import Scheduling

  /** What scheduling fixed for each pass. */
  function SlotsOf(t: PassTable.Table): map<PassId, Slot> {
    map p | p in t :: Slot(t[p].reserved, t[p].los + t[p].postRoll)
  }

  /** The buffers leave room for the loop's latency before the rise and for the post-roll after the set. */
  ghost predicate Roomy(t: PassTable.Table, latency: Time) {
    forall p :: p in t ==> t[p].reserved.from + 2 * latency <= t[p].aos && t[p].los + t[p].postRoll <= t[p].reserved.to
  }

  /** The times are those of the pass. */
  predicate TimesOf(t: PassTable.Table, p: PassId, aos: Time, los: Time) {
    p in t && t[p].aos == aos && t[p].los == los
  }

  /** Plans that never hold the station at the same time. */
  ghost predicate Apart(t: PassTable.Table, plans: seq<Plan>) {
    forall i, j :: 0 <= i < |plans| && 0 <= j < |plans| && i != j && plans[i].passId in t && plans[j].passId in t ==>
      !t[plans[i].passId].reserved.Overlaps(t[plans[j].passId].reserved)
  }

  ghost predicate AnswerOk(t: PassTable.Table, r: Response) {
    Apart(t, r.plans) && forall k :: 0 <= k < |r.plans| ==> TimesOf(t, r.plans[k].passId, r.plans[k].aos, r.plans[k].los)
  }

  ghost predicate RowsOk(t: PassTable.Table, rows: Rows) {
    forall p :: p in rows ==> TimesOf(t, p, rows[p].aos, rows[p].los)
  }

  ghost predicate TimesInv(s: System) {
    && (forall p :: p in s.planned ==> s.planned[p].passId == p && TimesOf(s.db.passes, p, s.planned[p].aos, s.planned[p].los))
    && (forall r :: r in s.responses ==> AnswerOk(s.db.passes, r))
    && RowsOk(s.db.passes, s.core.store.plans)
  }

  /** A later table: no pass gone, none moved. */
  ghost predicate Unmoved(before: PassTable.Table, after: PassTable.Table) {
    forall p :: p in before ==>
      p in after && after[p].aos == before[p].aos && after[p].los == before[p].los && after[p].reserved == before[p].reserved
  }

  lemma StepUnmoved(h: Hashes, station: PassTable.StationId, s: System, step: Step)
    requires BothOk(s)
    ensures Unmoved(s.db.passes, Next(h, station, s, step).db.passes)
  {
    var op := DbStep(h, station, s, step);
    if op.Some? {
      forall p | p in s.db.passes
        ensures p in Scheduling.Next(s.db, op.value).passes
        ensures Scheduling.Evolves(s.db.passes[p], Scheduling.Next(s.db, op.value).passes[p])
      {
        Scheduling.StepEvolves(s.db, op.value, p);
      }
    }
  }

  lemma AnswerKept(before: PassTable.Table, after: PassTable.Table, r: Response)
    requires Unmoved(before, after) && AnswerOk(before, r)
    ensures AnswerOk(after, r)
  {
    forall k | 0 <= k < |r.plans| ensures TimesOf(after, r.plans[k].passId, r.plans[k].aos, r.plans[k].los) {
      assert TimesOf(before, r.plans[k].passId, r.plans[k].aos, r.plans[k].los);
    }
    forall i, j | 0 <= i < |r.plans| && 0 <= j < |r.plans| && i != j
      ensures !after[r.plans[i].passId].reserved.Overlaps(after[r.plans[j].passId].reserved)
    {
      assert TimesOf(before, r.plans[i].passId, r.plans[i].aos, r.plans[i].los);
      assert TimesOf(before, r.plans[j].passId, r.plans[j].aos, r.plans[j].los);
    }
  }

  /** The desired state of a station is a set of approved passes, which exclude one another. */
  lemma ListingApart(s: System, station: PassTable.StationId, listing: seq<Plan>, generation: Digest)
    requires BothOk(s) && TimesInv(s) && IsListing(s, station, listing)
    ensures AnswerOk(s.db.passes, Response(listing, generation))
  {
    var t := s.db.passes;
    forall i, j | 0 <= i < |listing| && 0 <= j < |listing| && i != j
      ensures !t[listing[i].passId].reserved.Overlaps(t[listing[j].passId].reserved)
    {
      var a, b := listing[i].passId, listing[j].passId;
      assert Desired(s, station, a) && Desired(s, station, b);
      assert a != b;
      assert !PassTable.Conflicting(t[a], t[b].station, t[b].reserved);
    }
  }

  /** Rows take their times from answers and keep them. */
  lemma EventTimes(t: PassTable.Table, c: WorkerCore.Core, e: WorkerCore.Event, plans: seq<Plan>)
    requires RowsOk(t, c.store.plans)
    requires e.step.ApplySync? ==> e.step.plans == plans
    requires forall k :: 0 <= k < |plans| ==> TimesOf(t, plans[k].passId, plans[k].aos, plans[k].los)
    ensures RowsOk(t, WorkerCore.Next(c, e).store.plans)
  {
    var rows := WorkerCore.Next(c, e).store.plans;
    forall p | p in rows ensures TimesOf(t, p, rows[p].aos, rows[p].los) {
      if e.step.ApplySync? && p in Incoming(plans) {
        var k :| 0 <= k < |plans| && plans[k] == Incoming(plans)[p];
        assert TimesOf(t, plans[k].passId, plans[k].aos, plans[k].los);
      }
    }
  }

  lemma RowsTimes(h: Hashes, station: PassTable.StationId, s: System, step: Step, t: PassTable.Table)
    requires RowsOk(t, s.core.store.plans)
    requires forall r :: r in s.responses ==> AnswerOk(t, r)
    ensures RowsOk(t, Next(h, station, s, step).core.store.plans)
  {
    var e := CoreStep(h, station, s, step);
    if e.Some? && e.value.step.ApplySync? {
      var plans := Supported(step.response.plans);
      forall k | 0 <= k < |plans| ensures TimesOf(t, plans[k].passId, plans[k].aos, plans[k].los) {
        assert plans[k] in plans;
        var l :| 0 <= l < |step.response.plans| && step.response.plans[l] == plans[k];
      }
      EventTimes(t, s.core, e.value, plans);
    } else if e.Some? {
      EventTimes(t, s.core, e.value, []);
    }
  }

  lemma StepTimes(h: Hashes, station: PassTable.StationId, s: System, step: Step)
    requires BothOk(s) && TimesInv(s)
    ensures TimesInv(Next(h, station, s, step))
  {
    var before, after := s.db.passes, Next(h, station, s, step);
    StepUnmoved(h, station, s, step);
    forall r | r in s.responses ensures AnswerOk(after.db.passes, r) { AnswerKept(before, after.db.passes, r); }
    assert RowsOk(after.db.passes, s.core.store.plans);
    RowsTimes(h, station, s, step, after.db.passes);
    AnswersOk(h, station, s, step);
    PlannedTimes(h, station, s, step, after);
  }

  lemma AnswersOk(h: Hashes, station: PassTable.StationId, s: System, step: Step)
    requires BothOk(s) && TimesInv(s)
    requires forall r :: r in s.responses ==> AnswerOk(Next(h, station, s, step).db.passes, r)
    ensures var after := Next(h, station, s, step);
            forall r :: r in after.responses ==> AnswerOk(after.db.passes, r)
  {
    if step.AnswerSync? && IsListing(s, station, step.listing) {
      ListingApart(s, station, step.listing, SetGeneration(h, step.listing));
    }
  }

  /** Plans are stored with the times of a pass on record. */
  lemma PlannedStep(h: Hashes, station: PassTable.StationId, s: System, step: Step)
    ensures var after := Next(h, station, s, step);
            || after.planned == s.planned
            || (&& step.StorePlan? && after.planned == s.planned[step.plan.passId := step.plan]
                && TimesOf(s.db.passes, step.plan.passId, step.plan.aos, step.plan.los))
  {
  }

  lemma PlannedTimes(h: Hashes, station: PassTable.StationId, s: System, step: Step, after: System)
    requires TimesInv(s) && after == Next(h, station, s, step) && Unmoved(s.db.passes, after.db.passes)
    ensures forall p :: p in after.planned ==>
              after.planned[p].passId == p && TimesOf(after.db.passes, p, after.planned[p].aos, after.planned[p].los)
  {
    PlannedStep(h, station, s, step);
    forall p | p in after.planned
      ensures after.planned[p].passId == p && TimesOf(after.db.passes, p, after.planned[p].aos, after.planned[p].los)
    {
      PlanKept(s.db.passes, after.db.passes, p, after.planned[p]);
    }
  }

  lemma PlanKept(before: PassTable.Table, after: PassTable.Table, p: PassId, plan: Plan)
    requires Unmoved(before, after)
    ensures TimesOf(before, p, plan.aos, plan.los) ==> TimesOf(after, p, plan.aos, plan.los)
  {
  }

  lemma {:induction false} RunTimes(h: Hashes, station: PassTable.StationId, steps: seq<Step>)
    ensures TimesInv(Run(h, station, steps))
  {
    if steps != [] {
      var init, last := steps[..|steps| - 1], steps[|steps| - 1];
      RunTimes(h, station, init);
      RunReportInv(h, station, init);
      StepTimes(h, station, Run(h, station, init), last);
    }
  }

  lemma RowFits(t: PassTable.Table, p: PassId, row: Row, latency: Time)
    requires TimesOf(t, p, row.aos, row.los) && PassTable.RowChecks(t[p]) && Roomy(t, latency)
    ensures FitsSlot(row, SlotsOf(t)[p], latency)
  {
  }

  /** Waiting rows of an answer exclude one another. */
  lemma RowsApart(t: PassTable.Table, rows: Rows, r: Response, p: PassId, q: PassId)
    requires FollowsAnswer(rows, r.plans) && AnswerOk(t, r)
    requires p in PendingIds(rows) && q in PendingIds(rows) && p != q && p in t && q in t
    ensures !t[p].reserved.Overlaps(t[q].reserved)
  {
    var i :| 0 <= i < |r.plans| && r.plans[i].passId == p;
    var j :| 0 <= j < |r.plans| && r.plans[j].passId == q;
  }

  /**
    Main result: in every state of every run of the protocol, however stale the Worker's plans are, the waiting ones lie
    inside reservations that do not overlap. With buffers that leave room, that is the timetable the execution loop needs to
    claim each of them in time.
   */
  lemma WaitingPlansAreOrderly(h: Hashes, station: PassTable.StationId, steps: seq<Step>, latency: Time)
    requires Roomy(Run(h, station, steps).db.passes, latency)
    ensures var s := Run(h, station, steps);
            Orderly(s.core.store.plans, SlotsOf(s.db.passes), latency)
  {
    var s := Run(h, station, steps);
    var rows, t := s.core.store.plans, s.db.passes;
    RunTimes(h, station, steps);
    RunReportInv(h, station, steps);
    RunSyncInv(h, station, steps);
    forall p | p in PendingIds(rows) ensures p in SlotsOf(t) && FitsSlot(rows[p], SlotsOf(t)[p], latency) {
      RowFits(t, p, rows[p], latency);
    }
    forall p, q | p in PendingIds(rows) && q in PendingIds(rows) && p != q
      ensures !SlotsOf(t)[p].reserved.Overlaps(SlotsOf(t)[q].reserved)
    {
      RowsApart(t, rows, s.lastSync.value, p, q);
    }
  }
}
