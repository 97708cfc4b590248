/** The execution loop: sleep until something is due, claim it, run it, look again. */
module ExecutionLoop {
  import opened Basics
  import opened WorkerState
  import PlanStore
  import PassTable
  import SchedulingService

  /** The longest the loop sleeps before looking again: thirty seconds. */
  const MAX_SLEEP: Time := 30_000_000

  /** What scheduling fixed for a pass: its reservation and the end of its recording. */
  datatype Slot = Slot(reserved: PassTable.Reservation, recordingEnd: Time)

  datatype Claim = Claim(passId: PassId, at: Time)

  function PendingIds(rows: Rows): set<PassId> {
    set p | p in rows && rows[p].state.Pending()
  }

  /** The recording as the plan generator fixes it stays inside the reservation exactly when the post-roll fits the buffer. */
  lemma RecordingFitsReservation(aos: Time, los: Time, config: SchedulingService.Config)
    ensures los + config.postRoll <= SchedulingService.ReservationFor(aos, los, config).to <==> config.postRoll <= config.postBuffer
  {
  }

  /** One plan lies properly inside its slot, with room for the loop's latency before it rises. */
  predicate FitsSlot(row: Row, slot: Slot, latency: Time) {
    && slot.reserved.from + 2 * latency <= row.aos
    && row.aos < row.los <= slot.recordingEnd <= slot.reserved.to
  }

  ghost predicate Orderly(rows: Rows, slots: map<PassId, Slot>, latency: Time) {
    && (forall p :: p in PendingIds(rows) ==> p in slots && FitsSlot(rows[p], slots[p], latency))
    && (forall p, q :: p in PendingIds(rows) && q in PendingIds(rows) && p != q ==> !slots[p].reserved.Overlaps(slots[q].reserved))
  }

  /** No pending plan's rise is closer than the loop's latency. */
  ghost predicate InTime(rows: Rows, now: Time, latency: Time) {
    forall p :: p in PendingIds(rows) ==> now + latency <= rows[p].aos
  }

  /** Earlier of two disjoint slots ends before the other begins. */
  lemma SlotsInOrder(p: Row, q: Row, sp: Slot, sq: Slot, latency: Time)
    requires FitsSlot(p, sp, latency) && FitsSlot(q, sq, latency) && latency >= 0
    requires !sp.reserved.Overlaps(sq.reserved)
    requires p.aos <= q.aos
    ensures p.aos < q.aos && sp.reserved.to <= sq.reserved.from
  {
  }

  /** Claims so far: plans that were pending, claimed by their rise, in strict order of rise, ahead of all still pending. */
  ghost predicate ClaimsOk(rows0: Rows, rows: Rows, claims: seq<Claim>) {
    && (forall k :: 0 <= k < |claims| ==> claims[k].passId in PendingIds(rows0) && claims[k].at <= rows0[claims[k].passId].aos)
    && (forall k, l :: 0 <= k < l < |claims| ==> rows0[claims[k].passId].aos < rows0[claims[l].passId].aos)
    && (forall k, q :: 0 <= k < |claims| && q in PendingIds(rows) && q in rows0 ==> rows0[claims[k].passId].aos < rows0[q].aos)
  }

  ghost predicate IsClaimed(claims: seq<Claim>, p: PassId) {
    exists k :: 0 <= k < |claims| && claims[k].passId == p
  }

  /** Every plan that was pending is untouched and still pending, or was claimed and finished; none was missed. */
  ghost predicate Progress(rows0: Rows, rows: Rows, claims: seq<Claim>) {
    && (forall p :: p in PendingIds(rows) ==> p in PendingIds(rows0))
    && (forall p :: p in PendingIds(rows0) ==>
          p in rows && (if p in PendingIds(rows) then rows[p] == rows0[p]
                        else IsClaimed(claims, p) && (rows[p].state == Completed || rows[p].state == Failed)))
  }

  /** In time for everything, the loop finds nothing to close out. */
  lemma NothingMissed(rows: Rows, slots: map<PassId, Slot>, latency: Time, now: Time, missed: seq<PassId>)
    requires Orderly(rows, slots, latency) && InTime(rows, now, latency) && latency >= 0
    requires Lists(missed, MissedIds(rows, now))
    ensures missed == []
  {
    forall p | p in rows && rows[p].state.Pending() ensures rows[p].los > now { assert p in PendingIds(rows); }
    assert MissedIds(rows, now) == {};
    ListsLength(missed, MissedIds(rows, now));
  }

  /** One more claim: `p`, first to rise of all pending, claimed by its rise and now finished. */
  lemma ClaimExtends(rows0: Rows, rows: Rows, after: Rows, claims: seq<Claim>, p: PassId, at: Time)
    requires ClaimsOk(rows0, rows, claims) && Progress(rows0, rows, claims)
    requires p in PendingIds(rows) && at <= rows[p].aos
    requires after.Keys == rows.Keys && (after[p].state == Completed || after[p].state == Failed)
    requires forall q :: q in rows && q != p ==> after[q] == rows[q]
    requires forall q :: q in PendingIds(after) ==> rows[p].aos < rows[q].aos
    ensures ClaimsOk(rows0, after, claims + [Claim(p, at)]) && Progress(rows0, after, claims + [Claim(p, at)])
  {
    var more := claims + [Claim(p, at)];
    assert more[|claims|].passId == p;
    assert forall q :: q in PendingIds(after) ==> q in PendingIds(rows);
    forall q | IsClaimed(claims, q) ensures IsClaimed(more, q) {
      var k :| 0 <= k < |claims| && claims[k].passId == q;
      assert more[k].passId == q;
    }
  }

  class Executor {
    const store: PlanStore.PlanStore
    const lead: Time
    const latency: Time               // bound on the loop's own delays
    const slots: map<PassId, Slot>
    var now: Time
    var claims: seq<Claim>

    constructor (store: PlanStore.PlanStore, lead: Time, latency: Time, slots: map<PassId, Slot>, now: Time)
      ensures this.store == store && this.lead == lead && this.latency == latency && this.slots == slots
      ensures this.now == now && claims == []
    {
      this.store, this.lead, this.latency, this.slots := store, lead, latency, slots;
      this.now, claims := now, [];
    }

    ghost predicate Ready()
      reads this, store
    {
      && 0 <= latency && 2 * latency <= lead
      && Orderly(store.plans, slots, latency)
      && InTime(store.plans, now, latency)
    }

    /** Claim a due plan and run it; the handler takes any time up to the end of the recording and succeeds or fails. */
    method Execute(p: PassId, ghost rows0: Rows)
      requires Ready() && IsNextDue(store.View(), now, p)
      requires ClaimsOk(rows0, store.plans, claims) && Progress(rows0, store.plans, claims)
      modifies this`now, this`claims, store
      ensures now >= old(now) && PendingIds(store.plans) == PendingIds(old(store.plans)) - {p}
      ensures Orderly(store.plans, slots, latency)
      ensures forall q :: q in PendingIds(store.plans) ==> now <= slots[q].reserved.from
      ensures ClaimsOk(rows0, store.plans, claims) && Progress(rows0, store.plans, claims)
    {
      ghost var rows := store.plans;
      var delay :| 0 <= delay <= latency;
      now := now + delay;
      assert p in PendingIds(rows);
      var claimed := store.MarkExecuting(p, now, now);
      claims := claims + [Claim(p, now)];
      var end :| now <= end <= slots[p].recordingEnd;
      now := end;
      var succeeded: bool := *;
      var _ := store.MarkFinished(p, if succeeded then Completed else Failed, "", now);
      AfterExecuting(rows, store.plans, slots, latency, p);
      ClaimExtends(rows0, rows, store.plans, old(claims), p, claims[|claims| - 1].at);
    }

    /** Finishing `p`, first to rise, leaves the others as they were and all of them after its slot. */
    static lemma AfterExecuting(rows: Rows, after: Rows, slots: map<PassId, Slot>, latency: Time, p: PassId)
      requires Orderly(rows, slots, latency) && latency >= 0
      requires p in PendingIds(rows) && forall q :: q in PendingIds(rows) ==> rows[p].aos <= rows[q].aos
      requires after.Keys == rows.Keys && !after[p].state.Pending()
      requires forall q :: q in rows && q != p ==> after[q] == rows[q]
      ensures PendingIds(after) == PendingIds(rows) - {p}
      ensures Orderly(after, slots, latency)
      ensures forall q :: q in PendingIds(after) ==> rows[p].aos < rows[q].aos && slots[p].reserved.to <= slots[q].reserved.from
    {
      assert forall q :: q in PendingIds(after) <==> q in PendingIds(rows) && q != p;
      forall q | q in PendingIds(after) ensures rows[p].aos < rows[q].aos && slots[p].reserved.to <= slots[q].reserved.from {
        SlotsInOrder(rows[p], rows[q], slots[p], slots[q], latency);
      }
    }

    /** One unit of work: close what was missed, then run what is due. */
    method Tick(ghost rows0: Rows) returns (ran: bool)
      requires Ready()
      requires ClaimsOk(rows0, store.plans, claims) && Progress(rows0, store.plans, claims)
      modifies this`now, this`claims, store
      ensures Orderly(store.plans, slots, latency)
      ensures ClaimsOk(rows0, store.plans, claims) && Progress(rows0, store.plans, claims)
      ensures if ran then
                && now >= old(now) && PendingIds(store.plans) < PendingIds(old(store.plans))
                && (forall q :: q in PendingIds(store.plans) ==> now <= slots[q].reserved.from)
              else
                && now == old(now) && store.plans == old(store.plans)
                && (forall q :: q in PendingIds(store.plans) ==> now < store.plans[q].aos - lead)
    {
      ghost var rows := store.plans;
      var missed := store.MarkMissedBefore(now, now);
      NothingMissed(rows, slots, latency, now, missed);
      var due := store.NextDue(now);
      assert forall q :: q in PendingIds(store.plans) ==> PendingRow(store.View(), q) && store.plans[q].los > now;
      if due.None? || now < store.plans[due.value].aos - lead {
        return false;
      }
      assert due.value in PendingIds(store.plans);
      Execute(due.value, rows0);
      ran := true;
    }

    /** How long the loop may sleep before it must look again. */
    method SecondsUntilNext() returns (wait: Time)
      requires forall q :: q in PendingIds(store.plans) ==> store.plans[q].los > now
      ensures 0 <= wait <= 30_000_000
      ensures forall q :: q in PendingIds(store.plans) && wait > 0 ==> now + wait <= store.plans[q].aos - lead
      ensures wait == 0 ==> exists q :: q in PendingIds(store.plans) && store.plans[q].aos - lead <= now
    {
      var due := store.NextDue(now);
      assert forall q :: q in PendingIds(store.plans) ==> PendingRow(store.View(), q) && store.plans[q].los > now;
      if due.None? {
        return MAX_SLEEP;
      }
      assert due.value in PendingIds(store.plans);
      wait := store.plans[due.value].aos - lead - now;
      if wait <= 0 {
        wait := 0;
      } else if wait > MAX_SLEEP {
        wait := MAX_SLEEP;
      }
    }

    /** After a turn of the loop and the sleep that follows, the loop is still in time for everything pending. */
    method Sleep(ran: bool)
      requires 0 <= latency && 2 * latency <= lead && Orderly(store.plans, slots, latency)
      requires ran ==> forall q :: q in PendingIds(store.plans) ==> now <= slots[q].reserved.from
      requires !ran ==> forall q :: q in PendingIds(store.plans) ==> now < store.plans[q].aos - lead
      modifies this`now
      ensures Ready()
      ensures now >= old(now) && (!ran ==> now > old(now))
    {
      var delay :| 0 <= delay <= latency;
      now := now + delay;
      var wait := SecondsUntilNext();
      now := now + wait;
    }

    /**
      Main result: started in time, and stopped at `deadline`, the loop has claimed every plan rising before it, each by its
      rise, in order of rise, and has missed none.
     */
    method Run(deadline: Time)
      requires Ready()
      modifies this`now, this`claims, store
      ensures now >= deadline
      ensures Progress(old(store.plans), store.plans, claims)
      ensures ClaimsOk(old(store.plans), store.plans, claims)
      ensures forall p :: p in PendingIds(old(store.plans)) && old(store.plans)[p].aos < deadline ==> IsClaimed(claims, p)
    {
      claims := [];
      ghost var rows0 := store.plans;
      Recover();
      while now < deadline
        invariant Ready()
        invariant ClaimsOk(rows0, store.plans, claims) && Progress(rows0, store.plans, claims)
        decreases PendingIds(store.plans), deadline - now
      {
        var ran := Tick(rows0);
        Sleep(ran);
      }
    }

    /** After a restart: fail what was interrupted, close what was missed. In time, nothing was missed. */
    method Recover()
      requires Ready()
      modifies store
      ensures Ready()
      ensures PendingIds(store.plans) == PendingIds(old(store.plans))
      ensures forall p :: p in PendingIds(store.plans) ==> store.plans[p] == old(store.plans)[p]
      ensures forall p :: p in old(store.plans) ==> p in store.plans && store.plans[p].state != Executing
    {
      ghost var before := store.View();
      var interrupted := store.RecoverInterrupted(now);
      FinishedAllRows(before, interrupted, Failed, RESTARTED, now);
      assert forall p :: p in PendingIds(store.plans) <==> p in PendingIds(before.plans);
      ghost var rows := store.plans;
      var missed := store.MarkMissedBefore(now, now);
      NothingMissed(rows, slots, latency, now, missed);
    }
  }
}
