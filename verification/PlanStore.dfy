/** The Worker's plan store as the object it is: tables updated in place under a lock. */
module PlanStore {
  import opened Basics
  import opened WorkerState

  class PlanStore {
    var plans: Rows
    var history: seq<Entry>
    var generation: Digest

    constructor ()
      ensures View() == Store(map[], [], Digest(""))
    {
      plans, history, generation := map[], [], Digest("");
    }

    function View(): Store
      reads this
    {
      Store(plans, history, generation)
    }

    /** The incoming plans keyed by pass; a repeated id keeps its last plan. */
    static method Dictionary(desired: seq<Plan>) returns (incoming: map<PassId, Plan>)
      ensures incoming == Incoming(desired)
    {
      incoming := map[];
      for i := 0 to |desired|
        invariant incoming == Incoming(desired[..i])
      {
        assert desired[..i + 1][..i] == desired[..i];
        incoming := incoming[desired[i].passId := desired[i]];
      }
      assert desired[..|desired|] == desired;
    }

    /** First loop of the transaction: insert or update the incoming plans. */
    method ApplyIncoming(incoming: map<PassId, Plan>, order: seq<PassId>, now: Time) returns (added: nat, updated: nat, kept: nat)
      requires Keyed(incoming)
      requires Lists(order, incoming.Keys)
      modifies this`plans
      ensures plans == AppliedAll(old(plans), incoming, order, now)
      ensures added == CountIn(order, Ids(old(plans), incoming, Added))
      ensures updated == CountIn(order, Ids(old(plans), incoming, Updated))
      ensures kept == CountIn(order, Ids(old(plans), incoming, Kept))
    {
      var existing := plans;
      added, updated, kept := 0, 0, 0;
      for i := 0 to |order|
        invariant plans == AppliedAll(existing, incoming, order[..i], now)
        invariant added == CountIn(order[..i], Ids(existing, incoming, Added))
        invariant updated == CountIn(order[..i], Ids(existing, incoming, Updated))
        invariant kept == CountIn(order[..i], Ids(existing, incoming, Kept))
      {
        var p := order[i];
        assert order[..i + 1][..i] == order[..i];
        AppliedNext(existing, incoming, order, i, now);
        if p !in existing {
          plans := plans[p := FreshRow(incoming[p], now)];
          added := added + 1;
        } else if existing[p].state.Terminal() {
          kept := kept + 1;
        } else if existing[p].generation == incoming[p].generation {
          kept := kept + 1;
        } else {
          plans := plans[p := ReplacedRow(existing[p], incoming[p], now)];
          updated := updated + 1;
        }
      }
      assert order[..|order|] == order;
    }

    /** Second loop: cancel every unfinished plan that is no longer desired. */
    method WithdrawAbsent(existing: Rows, incoming: map<PassId, Plan>, order: seq<PassId>, now: Time) returns (cancelled: nat)
      requires Lists(order, existing.Keys)
      requires existing.Keys <= plans.Keys
      requires forall p :: p in existing && p !in incoming ==> plans[p] == existing[p]
      modifies this`plans
      ensures plans == WithdrawnAll(old(plans), existing, incoming, order, now)
      ensures cancelled == CountIn(order, WithdrawnIds(existing, incoming))
    {
      cancelled := 0;
      for i := 0 to |order|
        invariant plans == WithdrawnAll(old(plans), existing, incoming, order[..i], now)
        invariant cancelled == CountIn(order[..i], WithdrawnIds(existing, incoming))
      {
        var p := order[i];
        assert order[..i + 1][..i] == order[..i];
        WithdrawnNext(old(plans), existing, incoming, order, i, now);
        if p !in incoming && !existing[p].state.Terminal() {
          plans := plans[p := WithdrawnRow(plans[p], now)];
          cancelled := cancelled + 1;
        }
      }
      assert order[..|order|] == order;
    }

    /** Reconcile to a new desired state in one transaction, counting what happened to each plan. */
    method ReplaceDesiredState(desired: seq<Plan>, newGeneration: Digest, now: Time) returns (summary: Summary)
      modifies this
      ensures View() == Reconcile(old(View()), desired, newGeneration, now)
      ensures history == old(history) && generation == newGeneration
      ensures summary == SummaryOf(old(plans), Incoming(desired))
    {
      var incoming := Dictionary(desired);
      var existing := plans;
      var first := Enumerate(incoming.Keys);
      var second := Enumerate(existing.Keys);
      var added, updated, kept := ApplyIncoming(incoming, first, now);
      AppliedAllRows(existing, incoming, first, now);
      var cancelled := WithdrawAbsent(existing, incoming, second, now);
      generation := newGeneration;
      summary := Summary(added, updated, kept, cancelled);
      LoopsReconcile(existing, incoming, first, second, now);
      LoopsCount(existing, incoming, first, second);
    }

    /** The soonest pending plan whose window is still open, or None when there is none. */
    method NextDue(now: Time) returns (due: Option<PassId>)
      ensures due.Some? ==> IsNextDue(View(), now, due.value)
      ensures due.Some? ==>
                && due.value in plans && plans[due.value].state in {Received, Ready} && plans[due.value].los > now
                && forall q :: q in plans && plans[q].state in {Received, Ready} && plans[q].los > now ==>
                     plans[due.value].aos <= plans[q].aos
      ensures due.None? ==> forall p :: p in plans && plans[p].state in {Received, Ready} ==> plans[p].los <= now
    {
      due := None;
      var todo := plans.Keys;
      while todo != {}
        invariant todo <= plans.Keys
        invariant due.Some? ==> PendingRow(View(), due.value) && plans[due.value].los > now
        invariant forall q :: q in plans.Keys - todo && plans[q].state.Pending() && plans[q].los > now ==>
                    due.Some? && plans[due.value].aos <= plans[q].aos
        decreases todo
      {
        var p :| p in todo;
        todo := todo - {p};
        if plans[p].state.Pending() && plans[p].los > now && (due.None? || plans[p].aos < plans[due.value].aos) {
          due := Some(p);
        }
      }
    }

    /** Claim a plan; only a plan that is still pending can be claimed, and only a claim is recorded. */
    method MarkExecuting(p: PassId, startedAt: Time, now: Time) returns (claimed: bool)
      modifies this
      ensures claimed <==> p in old(plans) && old(plans)[p].state in {Received, Ready}
      ensures claimed ==> p in plans && plans[p].state == Executing && plans[p].startedAt == Some(startedAt)
      ensures View() == if claimed then Record(ClaimRow(old(View()), p, startedAt, now), p, Executing, "", now) else old(View())
    {
      claimed := p in plans && plans[p].state.Pending();
      if claimed {
        plans := plans[p := plans[p].(state := Executing, startedAt := Some(startedAt), updatedAt := now)];
        history := history + [Entry(p, Executing, "", now, false)];
      }
    }

    /** Record a terminal outcome; a state that is not terminal is refused and nothing is written. */
    method MarkFinished(p: PassId, state: ExecutionState, detail: string, now: Time) returns (accepted: bool)
      modifies this
      ensures accepted <==> state in {Completed, Failed, Missed, Cancelled}
      ensures accepted && p in old(plans) ==>
                p in plans && plans[p] == old(plans)[p].(state := state, finishedAt := Some(now), updatedAt := now, detail := detail)
      ensures accepted ==> history == old(history) + [Entry(p, state, detail, now, false)]
      ensures View() == if accepted then Finished(old(View()), p, state, detail, now) else old(View())
    {
      accepted := state.Terminal();
      if accepted {
        if p in plans {
          plans := plans[p := plans[p].(state := state, finishedAt := Some(now), updatedAt := now, detail := detail)];
        }
        history := history + [Entry(p, state, detail, now, false)];
      }
    }

    method FinishEach(ids: seq<PassId>, state: ExecutionState, detail: string, now: Time)
      requires state.Terminal()
      modifies this
      ensures View() == FinishedAll(old(View()), ids, state, detail, now)
    {
      for i := 0 to |ids|
        invariant View() == FinishedAll(old(View()), ids[..i], state, detail, now)
      {
        assert ids[..i + 1][..i] == ids[..i];
        var _ := MarkFinished(ids[i], state, detail, now);
      }
      assert ids[..|ids|] == ids;
    }

    /** Close out every pending plan whose window has closed. */
    method MarkMissedBefore(cutoff: Time, now: Time) returns (missed: seq<PassId>)
      modifies this
      ensures Lists(missed, MissedIds(old(plans), cutoff))
      ensures View() == FinishedAll(old(View()), missed, Missed, WINDOW_CLOSED, now)
      ensures plans.Keys == old(plans).Keys
      ensures forall p :: p in plans && old(plans)[p].state in {Received, Ready} ==>
                && (plans[p].state == Missed <==> old(plans)[p].los <= cutoff)
                && (plans[p].state != Missed ==> plans[p] == old(plans)[p])
      ensures forall p :: p in plans && old(plans)[p].state !in {Received, Ready} ==> plans[p] == old(plans)[p]
    {
      ghost var before := View();
      missed := Enumerate(MissedIds(plans, cutoff));
      SweptOrClaimable(before, missed, cutoff, now);
      FinishEach(missed, Missed, WINDOW_CLOSED, now);
    }

    /** Fail every plan that was executing when the Worker stopped. */
    method RecoverInterrupted(now: Time) returns (interrupted: seq<PassId>)
      modifies this
      ensures Lists(interrupted, InterruptedIds(old(plans)))
      ensures View() == FinishedAll(old(View()), interrupted, Failed, RESTARTED, now)
      ensures plans.Keys == old(plans).Keys
      ensures forall p :: p in plans ==>
                if old(plans)[p].state == Executing then plans[p].state == Failed else plans[p] == old(plans)[p]
    {
      ghost var before := View();
      interrupted := Enumerate(InterruptedIds(plans));
      FinishedAllRows(before, interrupted, Failed, RESTARTED, now);
      FinishEach(interrupted, Failed, RESTARTED, now);
    }

    /** The ids of the first `limit` records not yet reported, oldest first. */
    method UnsyncedHistory(limit: nat) returns (ids: seq<nat>)
      ensures |ids| <= limit
      ensures forall k :: 0 <= k < |ids| ==> ids[k] < |history| && !history[ids[k]].synced
      ensures forall k, l :: 0 <= k < l < |ids| ==> ids[k] < ids[l]
      ensures forall i: nat :: i < |history| && !history[i].synced && i !in ids ==>
                |ids| == limit && forall k :: 0 <= k < |ids| ==> ids[k] < i
    {
      ids := [];
      for i := 0 to |history|
        invariant |ids| <= limit
        invariant forall k :: 0 <= k < |ids| ==> ids[k] < i && !history[ids[k]].synced
        invariant forall k, l :: 0 <= k < l < |ids| ==> ids[k] < ids[l]
        invariant forall j: nat :: j < i && !history[j].synced && j !in ids ==>
                    |ids| == limit && forall k :: 0 <= k < |ids| ==> ids[k] < j
      {
        if !history[i].synced && |ids| < limit {
          ids := ids + [i];
        }
      }
    }

    method MarkHistorySynced(ids: seq<nat>)
      modifies this
      ensures View() == Synced(old(View()), set i | i in ids)
      ensures |history| == |old(history)|
      ensures forall i :: 0 <= i < |history| ==>
                history[i] == old(history)[i].(synced := i in ids || old(history)[i].synced)
    {
      history := seq(|history|, i requires 0 <= i < |history| reads this =>
                       if i in ids then history[i].(synced := true) else history[i]);
    }
  }
}
