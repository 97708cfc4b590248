/** The scheduling service over its repository: requests, root overrides, decisions and cancellations as they run. */
module SchedulingService {
  import opened Basics
  import opened PassTable
  import opened Scheduling

  datatype Config = Config(leadTime: Time, preBuffer: Time, postBuffer: Time, preRoll: Time, postRoll: Time)

  function ReservationFor(aos: Time, los: Time, config: Config): Reservation {
    Reservation(aos - config.preBuffer, los + config.postBuffer)
  }

  /** The booking is early enough. */
  predicate MeetsLeadTime(now: Time, aos: Time, config: Config) {
    aos >= now + config.leadTime
  }

  /** Every other live pass of the station is over before `from`, or begins at `to` or later. */
  ghost predicate ClearOf(t: Table, id: PassId, station: StationId, from: Time, to: Time) {
    forall q :: q in t && q != id && t[q].station == station && t[q].status in {PendingApproval, Approved, Executing} ==>
      t[q].reserved.to <= from || to <= t[q].reserved.from
  }

  /** A predicted pass as it is first stored. */
  function NewPass(station: StationId, requester: UserId, aos: Time, los: Time, config: Config): Pass {
    Pass(station, requester, PendingApproval, aos, los, ReservationFor(aos, los, config), config.preRoll, config.postRoll, None, None)
  }

  /** What is known about a request before it reaches the table. */
  datatype Checks = Checks(
    schedulable: bool,        // the satellite may be scheduled
    bandKnown: bool,          // the band is VHF or UHF
    configured: bool,         // the station has a configuration in force
    workerOnline: bool,
    hasElements: bool,        // orbital data is on record
    predicted: bool,          // the requested pass is among the predicted ones
    pipelineChosen: bool)     // a pipeline is named, or the recording mode needs none

  /** The refusals before the lead time is looked at, in order. */
  function EarlyRefusal(c: Checks): Option<Answer> {
    if !c.schedulable then Some(NotSchedulable)
    else if !c.bandKnown then Some(UnknownBand)
    else if !c.configured then Some(NotConfigured)
    else if !c.workerOnline then Some(WorkerOffline)
    else if !c.hasElements then Some(NoElements)
    else if !c.predicted then Some(NotPredicted)
    else None
  }

  /** All refusals before the table is touched, in order. */
  function Refusal(c: Checks, now: Time, aos: Time, config: Config): (r: Option<Answer>)
    ensures r == None ==> MeetsLeadTime(now, aos, config)
  {
    if EarlyRefusal(c).Some? then EarlyRefusal(c)
    else if !MeetsLeadTime(now, aos, config) then Some(TooSoon)
    else if !c.pipelineChosen then Some(PipelineRequired)
    else None
  }

  /** The first check that fails gives the answer, and none is skipped. */
  lemma FirstFailingCheckAnswers(c: Checks, now: Time, aos: Time, config: Config)
    ensures var r := Refusal(c, now, aos, config);
            var known := c.schedulable && c.bandKnown && c.configured;
            var found := known && c.workerOnline && c.hasElements && c.predicted;
            && (r == Some(NotSchedulable) <==> !c.schedulable)
            && (r == Some(UnknownBand) <==> c.schedulable && !c.bandKnown)
            && (r == Some(NotConfigured) <==> c.schedulable && c.bandKnown && !c.configured)
            && (r == Some(WorkerOffline) <==> known && !c.workerOnline)
            && (r == Some(NoElements) <==> known && c.workerOnline && !c.hasElements)
            && (r == Some(NotPredicted) <==> known && c.workerOnline && c.hasElements && !c.predicted)
            && (r == Some(TooSoon) <==> found && aos < now + config.leadTime)
            && (r == Some(PipelineRequired) <==> found && now + config.leadTime <= aos && !c.pipelineChosen)
            && (r == None <==> found && now + config.leadTime <= aos && c.pipelineChosen)
  {
  }

  datatype Answer =
    | Accepted(passId: PassId)
    | NotSchedulable | UnknownBand | NotConfigured | WorkerOffline | NoElements | NotPredicted
    | TooSoon
    | PipelineRequired
    | Occupied(hull: Reservation)
    | NotPermitted
    | Refused
    | PlanMissing(passId: PassId)    // committed, but the plan could not be generated afterwards

  // ---- The cancelling loop of the override, one pass at a time ----

  function CancelledAll(t: Table, order: seq<PassId>, actor: UserId, at: Time): Table
    requires forall q :: q in order ==> q in t
  {
    if order == [] then t
    else
      var q := order[|order| - 1];
      CancelledAll(t, order[..|order| - 1], actor, at)[q := CancelledRow(t[q], actor, ByRootOverride, at)]
  }

  lemma {:induction false} CancelledAllRows(t: Table, order: seq<PassId>, actor: UserId, at: Time)
    requires forall q :: q in order ==> q in t
    ensures var after := CancelledAll(t, order, actor, at);
            && after.Keys == t.Keys
            && forall q :: q in t ==> after[q] == if q in order then CancelledRow(t[q], actor, ByRootOverride, at) else t[q]
  {
    if order != [] {
      assert order == order[..|order| - 1] + [order[|order| - 1]];
      CancelledAllRows(t, order[..|order| - 1], actor, at);
    }
  }

  /** One turn of that loop. */
  lemma CancelledNext(t: Table, order: seq<PassId>, i: nat, actor: UserId, at: Time)
    requires i < |order| && order[i] !in order[..i] && forall q :: q in order ==> q in t
    ensures var before := CancelledAll(t, order[..i], actor, at);
            && order[i] in before && before[order[i]] == t[order[i]]
            && CancelledAll(t, order[..i + 1], actor, at) == before[order[i] := CancelledRow(t[order[i]], actor, ByRootOverride, at)]
    ensures OverrideAudits(t, order[..i + 1], actor)
         == OverrideAudits(t, order[..i], actor) + [OverriddenBy(actor, order[i], t[order[i]].status)]
  {
    CancelledAllRows(t, order[..i], actor, at);
    assert order[i] in order;
    assert order[..i + 1][..i] == order[..i];
  }

  /** A new pass is clear of all others exactly when the overlap query finds nothing. */
  lemma ClearExactlyWithoutConflict(t: Table, id: PassId, pass: Pass)
    requires id !in t
    ensures Conflicts(t, pass.station, pass.reserved) == {} <==> ClearOf(t, id, pass.station, pass.reserved.from, pass.reserved.to)
    ensures ClearOf(t, id, pass.station, pass.reserved.from, pass.reserved.to)
       <==> ClearOf(t[id := pass], id, pass.station, pass.reserved.from, pass.reserved.to)
  {
    var hit := Conflicts(t, pass.station, pass.reserved);
    forall q | q in t && q != id
      ensures q in hit <==>
                && t[q].station == pass.station && t[q].status in {PendingApproval, Approved, Executing}
                && !(t[q].reserved.to <= pass.reserved.from || pass.reserved.to <= t[q].reserved.from)
    {
    }
    if hit != {} { var q :| q in hit; }
    ClearOfOthers(t, id, pass, pass.station, pass.reserved.from, pass.reserved.to);
  }

  lemma ClearOfOthers(t: Table, id: PassId, pass: Pass, station: StationId, from: Time, to: Time)
    requires id !in t
    ensures ClearOf(t, id, station, from, to) <==> ClearOf(t[id := pass], id, station, from, to)
  {
    var after := t[id := pass];
    forall q | q in t ensures q in after && q != id && after[q] == t[q] {
    }
    forall q | q in after && q != id ensures q in t && after[q] == t[q] {
    }
    if ClearOf(after, id, station, from, to) {
      forall q | q in t && q != id && t[q].station == station && t[q].status in {PendingApproval, Approved, Executing}
        ensures t[q].reserved.to <= from || to <= t[q].reserved.from
      {
        assert after[q] == t[q];
      }
    }
  }

  /** With every conflict cancelled the new pass fits, and approving it gives the announced table. */
  lemma OverrideFits(t: Table, id: PassId, pass: Pass, actor: UserId, at: Time, order: seq<PassId>)
    requires ListsConflicts(t, pass, order)
    requires id !in t && pass.status == PendingApproval && RowChecks(pass)
    ensures var cleared := CancelledAll(t, order, actor, at);
            && Insert(cleared, id, pass).Some?
            && Approve(Insert(cleared, id, pass).value, id, actor, at)
               == Some(Overridden(t, Conflicts(t, pass.station, pass.reserved), id, pass, actor, at))
  {
    CancelledAllRows(t, order, actor, at);
    var cleared := CancelledAll(t, order, actor, at);
    forall q | q in cleared ensures !Conflicting(cleared[q], pass.station, pass.reserved) {
      assert q in Conflicts(t, pass.station, pass.reserved) <==> Conflicting(t[q], pass.station, pass.reserved);
    }
    assert Conflicts(cleared, pass.station, pass.reserved) == {};
    var goal := Overridden(t, Conflicts(t, pass.station, pass.reserved), id, pass, actor, at);
    var got := Approve(cleared[id := pass], id, actor, at).value;
    assert got.Keys == goal.Keys;
    assert forall q :: q in goal ==> got[q] == goal[q];
    assert got == goal;
  }

  class Service {
    var passes: Table
    var audit: seq<Audit>

    constructor ()
      ensures View() == EMPTY
    {
      passes, audit := map[], [];
    }

    function View(): Db
      reads this
    {
      Db(passes, audit)
    }

    /** The live passes of a station that overlap a reservation, earliest first. */
    method FindConflictingPasses(pass: Pass) returns (order: seq<PassId>)
      ensures ListsConflicts(passes, pass, order)
    {
      order := [];
      var todo := Conflicts(passes, pass.station, pass.reserved);
      ghost var all := todo;
      while todo != {}
        invariant todo <= all
        invariant forall q :: q in all ==> q in passes
        invariant forall q :: q in order <==> q in all && q !in todo
        invariant forall i, j :: 0 <= i < j < |order| ==> order[i] != order[j]
        invariant forall i, j :: 0 <= i < j < |order| && order[i] in passes && order[j] in passes ==>
                    passes[order[i]].reserved.from <= passes[order[j]].reserved.from
        invariant forall i, q :: 0 <= i < |order| && q in todo ==>
                    order[i] in passes && passes[order[i]].reserved.from <= passes[q].reserved.from
        decreases todo
      {
        var q := Earliest(passes, todo);
        todo := todo - {q};
        order := order + [q];
      }
    }

    /** A pass of the set whose reservation starts first. */
    static method Earliest(t: Table, ids: set<PassId>) returns (q: PassId)
      requires ids != {}
      requires forall r :: r in ids ==> r in t
      ensures q in ids && forall r :: r in ids ==> t[q].reserved.from <= t[r].reserved.from
    {
      q :| q in ids;
      var todo := ids;
      while todo != {}
        invariant todo <= ids && q in ids
        invariant forall r :: r in ids && r !in todo ==> t[q].reserved.from <= t[r].reserved.from
        decreases todo
      {
        var r :| r in todo;
        todo := todo - {r};
        if t[r].reserved.from < t[q].reserved.from { q := r; }
      }
    }

    /** What to report as occupied: the smallest interval holding every reservation in the way. */
    method ConflictFor(pass: Pass) returns (hull: Reservation)
      ensures Conflicts(passes, pass.station, pass.reserved) == {} ==> hull == pass.reserved
      ensures forall q :: q in Conflicts(passes, pass.station, pass.reserved) ==>
                hull.from <= passes[q].reserved.from && passes[q].reserved.to <= hull.to
      ensures Conflicts(passes, pass.station, pass.reserved) != {} ==>
                && (exists q :: q in Conflicts(passes, pass.station, pass.reserved) && passes[q].reserved.from == hull.from)
                && (exists q :: q in Conflicts(passes, pass.station, pass.reserved) && passes[q].reserved.to == hull.to)
    {
      var order := FindConflictingPasses(pass);
      if order == [] {
        hull := pass.reserved;
      } else {
        assert order[0] in order;
        hull := Hull(passes, order);
      }
    }

    static method Hull(t: Table, ids: seq<PassId>) returns (hull: Reservation)
      requires ids != []
      requires forall q :: q in ids ==> q in t
      ensures forall q :: q in ids ==> hull.from <= t[q].reserved.from && t[q].reserved.to <= hull.to
      ensures exists q :: q in ids && t[q].reserved.from == hull.from
      ensures exists q :: q in ids && t[q].reserved.to == hull.to
    {
      var first, last := ids[0], ids[0];
      for i := 1 to |ids|
        invariant first in ids && last in ids
        invariant forall k :: 0 <= k < i ==> t[first].reserved.from <= t[ids[k]].reserved.from
        invariant forall k :: 0 <= k < i ==> t[ids[k]].reserved.to <= t[last].reserved.to
      {
        if t[ids[i]].reserved.from < t[first].reserved.from { first := ids[i]; }
        if t[ids[i]].reserved.to > t[last].reserved.to { last := ids[i]; }
      }
      hull := Reservation(t[first].reserved.from, t[last].reserved.to);
    }

    /** Request a pass: refused by the checks, inside the lead time or over a live reservation, pending approval otherwise. */
    method RequestPass(id: PassId, station: StationId, requester: UserId, aos: Time, los: Time, config: Config, checks: Checks, now: Time)
      returns (answer: Answer, ghost faulted: bool)
      modifies this
      ensures var pass := NewPass(station, requester, aos, los, config);
              var refusal := Refusal(checks, now, aos, config);
              && (refusal.Some? ==> answer == refusal.value && View() == old(View()))
              && (refusal == None && !faulted ==> View() == Next(old(View()), Request(id, pass)))
              && (faulted ==> answer == Refused)
              && (answer.Accepted? ==> id !in old(passes) && passes == old(passes)[id := pass])
              && (!answer.Accepted? ==> View() == old(View()))
              && (answer == TooSoon ==> aos < now + config.leadTime)
              && (refusal == None && !faulted ==>
                    (answer.Accepted? <==>
                       && id !in old(passes) && aos < los && 0 <= config.preBuffer && 0 <= config.postBuffer
                       && 0 <= config.preRoll && 0 <= config.postRoll
                       && ClearOf(old(passes), id, station, aos - config.preBuffer, los + config.postBuffer)))
      ensures answer.Accepted? ==>
                && now + config.leadTime <= aos
                && ClearOf(passes, id, station, aos - config.preBuffer, los + config.postBuffer)
                && id in passes && passes[id].reserved == Reservation(aos - config.preBuffer, los + config.postBuffer)
                && passes[id].station == station && passes[id].requestedBy == requester && passes[id].status == PendingApproval
                && passes[id].aos == aos && passes[id].los == los
                && passes[id].preRoll == config.preRoll && passes[id].postRoll == config.postRoll
      ensures var pass := NewPass(station, requester, aos, los, config);
              (answer.Occupied? ==>
                    && Conflicts(passes, station, pass.reserved) != {}
                    && forall q :: q in Conflicts(passes, station, pass.reserved) ==>
                         answer.hull.from <= passes[q].reserved.from && passes[q].reserved.to <= answer.hull.to)
    {
      faulted := false;
      var refusal := Refusal(checks, now, aos, config);
      if refusal.Some? {
        return refusal.value, faulted;
      }
      var fails: bool := *;
      if fails {
        return Refused, true;
      }
      var pass := NewPass(station, requester, aos, los, config);
      var inserted := Insert(passes, id, pass);
      if id !in passes { ClearExactlyWithoutConflict(passes, id, pass); }
      if inserted.Some? {
        passes := inserted.value;
        answer := Accepted(id);
      } else if id in passes || !RowChecks(pass) {
        answer := Refused;
      } else {
        var hull := ConflictFor(pass);
        answer := Occupied(hull);
      }
    }

    /** Cancel the listed passes inside the open transaction, stopping at the first that cannot be cancelled or at a
        statement that fails; what was written so far is for the caller to roll back. */
    method CancelEach(order: seq<PassId>, actor: UserId, at: Time) returns (ok: bool, ghost faulted: bool)
      requires NoDuplicates(order)
      requires forall q :: q in order ==> q in passes
      modifies this
      ensures faulted ==> !ok
      ensures !faulted ==> ok == forall q :: q in order ==> Cancellable(old(passes)[q].status)
      ensures ok ==> passes == CancelledAll(old(passes), order, actor, at) && audit == old(audit) + OverrideAudits(old(passes), order, actor)
    {
      faulted := false;
      ghost var t := passes;
      for i := 0 to |order|
        invariant passes == CancelledAll(t, order[..i], actor, at)
        invariant audit == old(audit) + OverrideAudits(t, order[..i], actor)
        invariant forall k :: 0 <= k < i ==> Cancellable(t[order[k]].status)
      {
        var q := order[i];
        CancelledNext(t, order, i, actor, at);
        assert q in order;
        if !Cancellable(passes[q].status) {
          return false, faulted;
        }
        var cancelFails: bool, auditFails: bool := *, *;
        if cancelFails {
          return false, true;
        }
        var previous := passes[q].status;
        passes := passes[q := CancelledRow(passes[q], actor, ByRootOverride, at)];
        if auditFails {
          return false, true;
        }
        audit := audit + [OverriddenBy(actor, q, previous)];
      }
      assert order[..|order|] == order;
      ok := true;
    }

    /** The override transaction: cancel what is in the way, insert, approve, record; or roll everything back, whether a
        guard refused or a statement failed. */
    method OverrideTransaction(id: PassId, pass: Pass, actor: UserId, at: Time)
      returns (committed: bool, ghost order: seq<PassId>, ghost faulted: bool)
      requires pass.status == PendingApproval
      modifies this
      ensures ListsConflicts(old(passes), pass, order)
      ensures faulted ==> !committed
      ensures !faulted ==> committed == OverrideAccepted(old(passes), id, pass)
      ensures View() == if committed then Next(old(View()), RootOverride(id, pass, actor, at, order)) else old(View())
    {
      var savedPasses, savedAudit := passes, audit;
      var conflicts := FindConflictingPasses(pass);
      order := conflicts;
      var ok;
      ok, faulted := CancelEach(conflicts, actor, at);
      var inserted := if ok then Insert(passes, id, pass) else None;
      if ok && id !in savedPasses && RowChecks(pass) { OverrideFits(savedPasses, id, pass, actor, at, conflicts); }
      if ok { CancelledAllRows(savedPasses, conflicts, actor, at); }
      var approved := if inserted.Some? then Approve(inserted.value, id, actor, at) else None;
      var fails: bool := *;      // any of the remaining statements, the commit included
      if approved.None? || fails {
        faulted := faulted || fails;
        passes, audit := savedPasses, savedAudit;
        committed := false;
      } else {
        passes := approved.value;
        audit := audit + [OverrideCreated(actor, id, |conflicts|, pass.aos)];
        committed := true;
      }
    }

    /** A root override. The plan is generated after the commit, so a failure there does not undo the booking. */
    method RequestPassWithRootOverride(id: PassId, station: StationId, actor: UserId, isRoot: bool, aos: Time, los: Time,
                                       config: Config, checks: Checks, now: Time, planGenerated: bool)
      returns (answer: Answer, ghost order: seq<PassId>, ghost faulted: bool)
      modifies this
      ensures var pass := NewPass(station, actor, aos, los, config);
              var refusal := Refusal(checks.(bandKnown := true), now, aos, config);
              if !isRoot then answer == NotPermitted && View() == old(View())
              else if refusal.Some? then answer == refusal.value && View() == old(View())
              else if faulted then answer == Refused && View() == old(View())
              else
                && ListsConflicts(old(passes), pass, order)
                && View() == Next(old(View()), RootOverride(id, pass, actor, now, order))
                && answer == (if !OverrideAccepted(old(passes), id, pass) then Refused
                              else if planGenerated then Accepted(id) else PlanMissing(id))
      ensures answer.Accepted? || answer.PlanMissing? ==>
                && isRoot && now + config.leadTime <= aos
                && ClearOf(passes, id, station, aos - config.preBuffer, los + config.postBuffer)
                && id in passes && passes[id].reserved == Reservation(aos - config.preBuffer, los + config.postBuffer)
                && passes[id].station == station && passes[id].requestedBy == actor && passes[id].status == Approved
                && passes[id].aos == aos && passes[id].los == los
                && passes[id].preRoll == config.preRoll && passes[id].postRoll == config.postRoll
    {
      order, faulted := [], false;
      if !isRoot {
        return NotPermitted, order, faulted;
      }
      var refusal := Refusal(checks.(bandKnown := true), now, aos, config);
      if refusal.Some? {
        return refusal.value, order, faulted;
      }
      var committed;
      committed, order, faulted := OverrideTransaction(id, NewPass(station, actor, aos, los, config), actor, now);
      answer := if !committed then Refused else if planGenerated then Accepted(id) else PlanMissing(id);
    }

    /** Approve or reject. The row is read and judged by the transition table, an approval generates its plan first, and
        only then is the guarded write made; it goes through exactly when the table allows the step. */
    method Decide(id: PassId, actor: UserId, mayApprove: bool, approve: bool, planGenerated: bool, now: Time)
      returns (answer: Answer)
      modifies this
      ensures var target := if approve then Approved else Rejected;
              var legal := mayApprove && id in old(passes) && target in Allowed(old(passes)[id].status)
                           && (approve ==> planGenerated);
              && (answer == Accepted(id) <==> legal)
              && View() == (if !legal then old(View())
                            else Next(old(View()), if approve then ApproveOp(id, actor, now) else RejectOp(id, actor, now)))
              && (legal ==> passes == old(passes)[id := old(passes)[id].(status := target, decision := Some(Decision(actor, now)))])
    {
      if !mayApprove { return NotPermitted; }
      if id !in passes { return Refused; }
      if (if approve then Approved else Rejected) !in Allowed(passes[id].status) { return Refused; }
      if approve && !planGenerated { return Refused; }
      var written := if approve then Approve(passes, id, actor, now) else Reject(passes, id, actor, now);
      if written.None? { return Refused; }
      passes := written.value;
      return Accepted(id);
    }

    /** Cancel, by the owner or an administrator: through exactly when the transition table allows it. */
    method CancelPass(id: PassId, actor: UserId, mayCancel: bool, reason: Reason, now: Time) returns (answer: Answer)
      modifies this
      ensures var legal := id in old(passes) && mayCancel && Cancelled in Allowed(old(passes)[id].status);
              && (answer == Accepted(id) <==> legal)
              && View() == (if legal then Next(old(View()), CancelOp(id, actor, reason, now)) else old(View()))
              && (legal ==> passes == old(passes)[id := old(passes)[id].(status := Cancelled,
                                                                         cancellation := Some(Cancellation(reason, actor, now)))])
    {
      if id !in passes { return Refused; }
      if !mayCancel { return NotPermitted; }
      if Cancelled !in Allowed(passes[id].status) { return Refused; }
      var written := Cancel(passes, id, actor, reason, now);
      if written.None? { return Refused; }
      passes := written.value;
      return Accepted(id);
    }
  }
}
