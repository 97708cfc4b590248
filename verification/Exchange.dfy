/** The calls that carry the protocol, as they run on each side: reporting outcomes and fetching the desired state. */
module Exchange {
  import opened Basics
  import opened WorkerState
  import opened Protocol
  import PlanStore
  import PassTable
  import Scheduling

  // ---- Server: taking a batch of reports ----

  function ProcessedAll(db: Scheduling.Db, reports: seq<Report>): Scheduling.Db {
    if reports == [] then db else ProcessedDb(ProcessedAll(db, reports[..|reports| - 1]), reports[|reports| - 1])
  }

  /** The report has nothing left to change. */
  ghost predicate Inert(db: Scheduling.Db, r: Report) {
    ProcessedDb(db, r) == db
  }

  lemma ProcessingSettles(db: Scheduling.Db, r: Report)
    ensures Inert(ProcessedDb(db, r), r)
  {
  }

  /** The pass may still take an outcome. */
  predicate Awaiting(db: Scheduling.Db, p: PassId) {
    p in db.passes && (db.passes[p].status == PassTable.Approved || db.passes[p].status == PassTable.Executing)
  }

  lemma InertExactlyWhenSettled(db: Scheduling.Db, r: Report)
    ensures Inert(db, r) <==> StatusFor(r.state) == None || !Awaiting(db, r.passId)
  {
    if StatusFor(r.state).Some? && Awaiting(db, r.passId) {
      assert ProcessedDb(db, r).passes[r.passId].status == StatusFor(r.state).value;
    }
  }

  lemma InertStays(db: Scheduling.Db, q: Report, r: Report)
    requires Inert(db, r)
    ensures Inert(ProcessedDb(db, q), r)
  {
    InertExactlyWhenSettled(db, r);
    InertExactlyWhenSettled(ProcessedDb(db, q), r);
  }

  lemma {:induction false} AllInertAfterwards(db: Scheduling.Db, reports: seq<Report>, i: nat)
    requires i < |reports|
    ensures Inert(ProcessedAll(db, reports), reports[i])
  {
    var init, last := reports[..|reports| - 1], reports[|reports| - 1];
    if i == |reports| - 1 {
      ProcessingSettles(ProcessedAll(db, init), last);
    } else {
      AllInertAfterwards(db, init, i);
      InertStays(ProcessedAll(db, init), last, reports[i]);
    }
  }

  lemma {:induction false} InertBatch(db: Scheduling.Db, reports: seq<Report>)
    requires forall i :: 0 <= i < |reports| ==> Inert(db, reports[i])
    ensures ProcessedAll(db, reports) == db
  {
    if reports != [] {
      InertBatch(db, reports[..|reports| - 1]);
    }
  }

  lemma {:induction false} ProcessedInPieces(db: Scheduling.Db, a: seq<Report>, b: seq<Report>)
    ensures ProcessedAll(db, a + b) == ProcessedAll(ProcessedAll(db, a), b)
    decreases |b|
  {
    if b == [] {
      assert a + b == a;
    } else {
      assert (a + b)[..|a + b| - 1] == a + b[..|b| - 1];
      ProcessedInPieces(db, a, b[..|b| - 1]);
    }
  }

  /** Main result: a batch that failed part-way, or whose answer was lost, can be sent again whole; the Server ends where a
      single complete delivery would have left it. */
  lemma RetryIsHarmless(db: Scheduling.Db, reports: seq<Report>, n: nat)
    requires n <= |reports|
    ensures ProcessedAll(ProcessedAll(db, reports[..n]), reports) == ProcessedAll(db, reports)
  {
    var first, rest := reports[..n], reports[n..];
    var once := ProcessedAll(db, first);
    assert reports == first + rest;
    forall i | 0 <= i < |first| ensures Inert(once, first[i]) { AllInertAfterwards(db, first, i); }
    InertBatch(once, first);
    ProcessedInPieces(once, first, rest);
    ProcessedInPieces(db, first, rest);
  }

  /** The first report of an outcome for a pass decides it, and the pass takes exactly that outcome. */
  lemma {:induction false} FirstReportDecides(db: Scheduling.Db, reports: seq<Report>, i: nat)
    requires i < |reports| && Awaiting(db, reports[i].passId) && reports[i].state.Outcome()
    requires forall j :: 0 <= j < i && reports[j].passId == reports[i].passId ==> !reports[j].state.Outcome()
    ensures reports[i].passId in ProcessedAll(db, reports).passes
    ensures var status := ProcessedAll(db, reports).passes[reports[i].passId].status;
            && (reports[i].state == Completed ==> status == PassTable.Completed)
            && (reports[i].state == Failed ==> status == PassTable.Failed)
            && (reports[i].state == Missed ==> status == PassTable.Missed)
    decreases |reports|
  {
    var init := reports[..|reports| - 1];
    if i < |reports| - 1 {
      FirstReportDecides(db, init, i);
    } else {
      StillAwaiting(db, init, reports[i].passId);
    }
  }

  /** Records without an outcome decide nothing. */
  lemma {:induction false} StillAwaiting(db: Scheduling.Db, reports: seq<Report>, p: PassId)
    requires Awaiting(db, p) && forall j :: 0 <= j < |reports| && reports[j].passId == p ==> !reports[j].state.Outcome()
    ensures Awaiting(ProcessedAll(db, reports), p)
  {
    if reports != [] { StillAwaiting(db, reports[..|reports| - 1], p); }
  }

  class WorkerService {
    var db: Scheduling.Db

    constructor (db: Scheduling.Db)
      ensures this.db == db
    {
      this.db := db;
    }

    /** One record after another, each its own write: an error abandons the rest and answers nothing, but what was
        written stays. Records of no outcome are skipped and not counted. */
    method ReportExecutions(reports: seq<Report>) returns (accepted: Option<nat>, processed: nat)
      modifies this
      ensures processed <= |reports|
      ensures db == ProcessedAll(old(db), reports[..processed])
      ensures accepted.Some? ==> processed == |reports|
                                 && accepted.value == |set i | 0 <= i < |reports| && StatusFor(reports[i].state).Some?|
    {
      var count := 0;
      processed := 0;
      ghost var taken: set<int> := {};
      while processed < |reports|
        invariant processed <= |reports|
        invariant db == ProcessedAll(old(db), reports[..processed])
        invariant forall i :: i in taken <==> 0 <= i < processed && StatusFor(reports[i].state).Some?
        invariant count == |taken|
        decreases |reports| - processed
      {
        var r := reports[processed];
        assert reports[..processed + 1][..processed] == reports[..processed];
        var status := StatusFor(r.state);
        if status.Some? {
          var fails: bool := *;
          if fails { return None, processed; }
          var written := PassTable.SetOutcome(db.passes, r.passId, status.value);
          if written.Some? { db := db.(passes := written.value); }
          taken := taken + {processed};
          count := count + 1;
        }
        processed := processed + 1;
      }
      assert reports[..processed] == reports;
      ghost var all := set i | 0 <= i < |reports| && StatusFor(reports[i].state).Some?;
      forall i ensures i in taken <==> i in all {
      }
      assert taken == all;
      accepted := Some(count);
    }
  }

  // ---- Worker: fetching the desired state, and reporting ----

  class DesiredStateSync {
    const store: PlanStore.PlanStore

    constructor (store: PlanStore.PlanStore)
      ensures this.store == store
    {
      this.store := store;
    }

    /** Apply an answer, leaving out the plans of an unknown version; an answer of "unchanged" changes nothing. */
    method SyncOnce(answer: Option<Response>, now: Time) returns (summary: Option<Summary>)
      modifies store
      ensures answer == None ==> summary == None && store.View() == old(store.View())
      ensures answer.Some? ==>
                && store.View() == Reconcile(old(store.View()), Supported(answer.value.plans), answer.value.generation, now)
                && summary == Some(SummaryOf(old(store.plans), Incoming(Supported(answer.value.plans))))
    {
      if answer == None { return None; }
      var listed := answer.value.plans;
      var plans: seq<Plan> := [];
      for i := 0 to |listed|
        invariant plans == Supported(listed[..i])
      {
        assert listed[..i + 1][..i] == listed[..i];
        if SupportedVersion(listed[i]) { plans := plans + [listed[i]]; }
      }
      assert listed[..|listed|] == listed;
      var counted := store.ReplaceDesiredState(plans, answer.value.generation, now);
      summary := Some(counted);
    }

    /** Send what is unreported; only an answer marks the records sent as delivered, and no others. */
    method ReportOutcomes(limit: nat, answered: bool) returns (sent: seq<nat>)
      modifies store
      ensures |sent| <= limit
      ensures forall k :: 0 <= k < |sent| ==> sent[k] < |old(store.history)| && !old(store.history)[sent[k]].synced
      ensures store.View() == if answered then Synced(old(store.View()), set i | i in sent) else old(store.View())
    {
      sent := store.UnsyncedHistory(limit);
      if sent == [] || !answered {
        assert sent == [] ==> Synced(store.View(), set i | i in sent) == store.View();
        return;
      }
      store.MarkHistorySynced(sent);
    }
  }
}
