/**
  The Worker's durable state as values: the plans table, the append-only history and the
  desired-state generation, with the effect of every statement the store executes.
 */
module WorkerState {
  import opened Basics

  type PassId = Uuid

  datatype ExecutionState = Received | Ready | Executing | Completed | Failed | Missed | Cancelled {
    predicate Terminal() {
      Completed? || Failed? || Missed? || Cancelled?
    }

    predicate Pending() {
      Received? || Ready?
    }

    /** The states a finished execution is recorded with. */
    predicate Outcome() {
      Completed? || Failed? || Missed?
    }
  }

  datatype Plan = Plan(passId: PassId, generation: Digest, version: int, encoded: string, aos: Time, los: Time)

  datatype Row = Row(
    generation: Digest,
    version: int,
    encoded: string,
    aos: Time,
    los: Time,
    state: ExecutionState,
    receivedAt: Time,
    updatedAt: Time,
    startedAt: Option<Time>,
    finishedAt: Option<Time>,
    detail: string)

  type Rows = map<PassId, Row>

  /** A history record; its id is its position. */
  datatype Entry = Entry(passId: PassId, state: ExecutionState, detail: string, recordedAt: Time, synced: bool)

  datatype Store = Store(plans: Rows, history: seq<Entry>, generation: Digest)

  const REMOVED := "removed from desired state"

  // ---- Reconciling to a new desired state ----

  /** A list of plans as a dictionary: the last plan for an id wins. */
  function Incoming(plans: seq<Plan>): (m: map<PassId, Plan>)
    ensures forall p :: p in m ==> m[p] in plans && m[p].passId == p
  {
    if plans == [] then map[]
    else
      var last := plans[|plans| - 1];
      Incoming(plans[..|plans| - 1])[last.passId := last]
  }

  function FreshRow(plan: Plan, now: Time): Row {
    Row(plan.generation, plan.version, plan.encoded, plan.aos, plan.los, Received, now, now, None, None, "")
  }

  function ReplacedRow(row: Row, plan: Plan, now: Time): Row {
    row.(generation := plan.generation, version := plan.version, encoded := plan.encoded,
         aos := plan.aos, los := plan.los, state := Received, updatedAt := now)
  }

  function WithdrawnRow(row: Row, now: Time): Row {
    row.(state := Cancelled, updatedAt := now, detail := REMOVED)
  }

  /** What an incoming plan does to its row, and what that is counted as. */
  datatype Change = Added | Updated | Kept

  function ChangeFor(rows: Rows, plan: Plan): Change {
    if plan.passId !in rows then Added
    else if rows[plan.passId].state.Terminal() || rows[plan.passId].generation == plan.generation then Kept
    else Updated
  }

  function AppliedRow(rows: Rows, plan: Plan, now: Time): Row {
    match ChangeFor(rows, plan)
    case Added => FreshRow(plan, now)
    case Updated => ReplacedRow(rows[plan.passId], plan, now)
    case Kept => rows[plan.passId]
  }

  function ReconciledRow(rows: Rows, incoming: map<PassId, Plan>, now: Time, p: PassId): Row
    requires p in rows || p in incoming
    requires p in incoming ==> incoming[p].passId == p
  {
    if p in incoming then AppliedRow(rows, incoming[p], now)
    else if rows[p].state.Terminal() then rows[p]
    else WithdrawnRow(rows[p], now)
  }

  predicate Keyed(incoming: map<PassId, Plan>) {
    forall p :: p in incoming ==> incoming[p].passId == p
  }

  function Reconciled(rows: Rows, incoming: map<PassId, Plan>, now: Time): Rows
    requires Keyed(incoming)
  {
    map p | p in rows.Keys + incoming.Keys :: ReconciledRow(rows, incoming, now, p)
  }

  function Reconcile(store: Store, plans: seq<Plan>, generation: Digest, now: Time): Store {
    store.(plans := Reconciled(store.plans, Incoming(plans), now), generation := generation)
  }

  function Ids(rows: Rows, incoming: map<PassId, Plan>, change: Change): set<PassId> {
    set p | p in incoming && ChangeFor(rows, incoming[p]) == change
  }

  function WithdrawnIds(rows: Rows, incoming: map<PassId, Plan>): set<PassId> {
    set p | p in rows && p !in incoming && !rows[p].state.Terminal()
  }

  // The two loops of the transaction, one row at a time in the order given.

  function AppliedAll(existing: Rows, incoming: map<PassId, Plan>, order: seq<PassId>, now: Time): Rows
    requires forall p :: p in order ==> p in incoming
  {
    if order == [] then existing
    else
      var p := order[|order| - 1];
      AppliedAll(existing, incoming, order[..|order| - 1], now)[p := AppliedRow(existing, incoming[p], now)]
  }

  function WithdrawnAll(rows: Rows, existing: Rows, incoming: map<PassId, Plan>, order: seq<PassId>, now: Time): Rows
    requires forall p :: p in order ==> p in existing
  {
    if order == [] then rows
    else
      var p := order[|order| - 1];
      var before := WithdrawnAll(rows, existing, incoming, order[..|order| - 1], now);
      if p in incoming || existing[p].state.Terminal() then before
      else before[p := WithdrawnRow(existing[p], now)]
  }

  lemma {:induction false} AppliedAllRows(existing: Rows, incoming: map<PassId, Plan>, order: seq<PassId>, now: Time)
    requires Keyed(incoming)
    requires forall p :: p in order ==> p in incoming
    ensures var after := AppliedAll(existing, incoming, order, now);
            && (forall p :: p in after <==> p in existing || p in order)
            && (forall p :: p in after ==>
                  after[p] == if p in order then AppliedRow(existing, incoming[p], now) else existing[p])
  {
    if order != [] {
      assert order == order[..|order| - 1] + [order[|order| - 1]];
      AppliedAllRows(existing, incoming, order[..|order| - 1], now);
    }
  }

  lemma {:induction false} WithdrawnAllRows(rows: Rows, existing: Rows, incoming: map<PassId, Plan>, order: seq<PassId>, now: Time)
    requires forall p :: p in order ==> p in existing
    requires existing.Keys <= rows.Keys
    ensures var after := WithdrawnAll(rows, existing, incoming, order, now);
            && after.Keys == rows.Keys
            && (forall p :: p in after ==>
                  after[p] == if p in order && p !in incoming && !existing[p].state.Terminal()
                              then WithdrawnRow(existing[p], now) else rows[p])
  {
    if order != [] {
      assert order == order[..|order| - 1] + [order[|order| - 1]];
      WithdrawnAllRows(rows, existing, incoming, order[..|order| - 1], now);
    }
  }

  lemma SameRows(a: Rows, b: Rows)
    requires forall p :: p in a <==> p in b
    requires forall p :: p in a ==> a[p] == b[p]
    ensures a == b
  {
  }

  /** One turn of the first loop: an unchanged row needs no write. */
  lemma AppliedNext(existing: Rows, incoming: map<PassId, Plan>, order: seq<PassId>, i: nat, now: Time)
    requires Keyed(incoming) && i < |order| && order[i] !in order[..i]
    requires forall p :: p in order ==> p in incoming
    ensures var before := AppliedAll(existing, incoming, order[..i], now);
            var plan := incoming[order[i]];
            AppliedAll(existing, incoming, order[..i + 1], now)
            == if ChangeFor(existing, plan) == Kept then before else before[order[i] := AppliedRow(existing, plan, now)]
  {
    assert order[..i + 1][..i] == order[..i];
    AppliedAllRows(existing, incoming, order[..i], now);
    if ChangeFor(existing, incoming[order[i]]) == Kept {
      var before := AppliedAll(existing, incoming, order[..i], now);
      SameRows(before, before[order[i] := existing[order[i]]]);
    }
  }

  /** One turn of the second loop. */
  lemma WithdrawnNext(rows: Rows, existing: Rows, incoming: map<PassId, Plan>, order: seq<PassId>, i: nat, now: Time)
    requires i < |order| && order[i] !in order[..i] && existing.Keys <= rows.Keys
    requires forall p :: p in order ==> p in existing
    requires order[i] !in incoming ==> rows[order[i]] == existing[order[i]]
    ensures var before := WithdrawnAll(rows, existing, incoming, order[..i], now);
            var p := order[i];
            && p in before && p in existing
            && (p !in incoming ==> before[p] == existing[p])
            && WithdrawnAll(rows, existing, incoming, order[..i + 1], now)
               == if p in incoming || existing[p].state.Terminal() then before else before[p := WithdrawnRow(existing[p], now)]
  {
    assert order[..i + 1][..i] == order[..i];
    assert order[i] in order;
    WithdrawnAllRows(rows, existing, incoming, order[..i], now);
  }

  /** Run over all incoming ids and then all existing ids, the loops reconcile the table. */
  lemma LoopsReconcile(existing: Rows, incoming: map<PassId, Plan>, first: seq<PassId>, second: seq<PassId>, now: Time)
    requires Keyed(incoming)
    requires Lists(first, incoming.Keys) && Lists(second, existing.Keys)
    ensures var applied := AppliedAll(existing, incoming, first, now);
            WithdrawnAll(applied, existing, incoming, second, now) == Reconciled(existing, incoming, now)
  {
    var applied := AppliedAll(existing, incoming, first, now);
    AppliedAllRows(existing, incoming, first, now);
    WithdrawnAllRows(applied, existing, incoming, second, now);
    var after, goal := WithdrawnAll(applied, existing, incoming, second, now), Reconciled(existing, incoming, now);
    forall p | p in goal
      ensures p in after && after[p] == goal[p]
    {
      assert goal[p] == ReconciledRow(existing, incoming, now, p);
    }
    SameRows(after, goal);
  }

  datatype Summary = Summary(added: nat, updated: nat, kept: nat, cancelled: nat)

  function SummaryOf(rows: Rows, incoming: map<PassId, Plan>): Summary {
    Summary(|Ids(rows, incoming, Added)|, |Ids(rows, incoming, Updated)|,
            |Ids(rows, incoming, Kept)|, |WithdrawnIds(rows, incoming)|)
  }

  lemma LoopsCount(existing: Rows, incoming: map<PassId, Plan>, first: seq<PassId>, second: seq<PassId>)
    requires Lists(first, incoming.Keys) && Lists(second, existing.Keys)
    ensures SummaryOf(existing, incoming)
         == Summary(CountIn(first, Ids(existing, incoming, Added)), CountIn(first, Ids(existing, incoming, Updated)),
                    CountIn(first, Ids(existing, incoming, Kept)), CountIn(second, WithdrawnIds(existing, incoming)))
  {
    CountIsCardinality(first, Ids(existing, incoming, Added));
    CountIsCardinality(first, Ids(existing, incoming, Updated));
    CountIsCardinality(first, Ids(existing, incoming, Kept));
    CountIsCardinality(second, WithdrawnIds(existing, incoming));
  }

  /** Every distinct incoming id is counted exactly once. */
  lemma ResyncCounts(rows: Rows, plans: seq<Plan>)
    ensures var s := SummaryOf(rows, Incoming(plans));
            s.added + s.updated + s.kept == |set plan | plan in plans :: plan.passId|
  {
    var incoming := Incoming(plans);
    IncomingIds(plans);
    ThreeWays(incoming.Keys, Ids(rows, incoming, Added), Ids(rows, incoming, Updated), Ids(rows, incoming, Kept));
  }

  lemma TwoWays(whole: set<PassId>, a: set<PassId>, b: set<PassId>)
    requires forall p :: p in whole <==> p in a || p in b
    requires a !! b
    ensures |whole| == |a| + |b|
  {
    assert whole == a + b;
  }

  lemma ThreeWays(whole: set<PassId>, a: set<PassId>, b: set<PassId>, c: set<PassId>)
    requires forall p :: p in whole <==> p in a || p in b || p in c
    requires a !! b && a !! c && b !! c
    ensures |whole| == |a| + |b| + |c|
  {
    assert whole == (a + b) + c;
  }

  /** No row is ever removed, terminal rows keep every column, and the rows cancelled are exactly the unfinished absent ones. */
  lemma ResyncKeepsRows(rows: Rows, incoming: map<PassId, Plan>, now: Time, p: PassId)
    requires Keyed(incoming)
    requires p in rows
    ensures var after := Reconciled(rows, incoming, now);
            && p in after
            && (rows[p].state.Terminal() ==> after[p] == rows[p])
            && (p in WithdrawnIds(rows, incoming) <==> !rows[p].state.Terminal() && after[p].state == Cancelled)
  {
  }

  lemma ResyncGrowsByAdded(rows: Rows, incoming: map<PassId, Plan>, now: Time)
    requires Keyed(incoming)
    ensures |Reconciled(rows, incoming, now)| == |rows| + SummaryOf(rows, incoming).added
  {
    TwoWays(Reconciled(rows, incoming, now).Keys, rows.Keys, Ids(rows, incoming, Added));
  }

  lemma {:induction false} IncomingIds(plans: seq<Plan>)
    ensures Incoming(plans).Keys == set plan | plan in plans :: plan.passId
  {
    if plans != [] {
      var init, last := plans[..|plans| - 1], plans[|plans| - 1];
      IncomingIds(init);
      assert forall plan :: plan in plans <==> plan in init || plan == last;
    }
  }

  /** After a resync, reconciling once more finds nothing to add, update or withdraw ... */
  lemma ResyncSettles(rows: Rows, incoming: map<PassId, Plan>, now: Time, p: PassId)
    requires Keyed(incoming)
    requires p in rows || p in incoming
    ensures var once := Reconciled(rows, incoming, now);
            && (p in incoming ==> ChangeFor(once, incoming[p]) == Kept)
            && (p !in incoming ==> once[p].state.Terminal())
  {
  }

  /** ... so applying the same desired state again changes no column of any row and counts only "unchanged". */
  lemma ResyncIdempotent(store: Store, plans: seq<Plan>, generation: Digest, now: Time, later: Time)
    ensures var once := Reconcile(store, plans, generation, now);
            && Reconcile(once, plans, generation, later) == once
            && SummaryOf(once.plans, Incoming(plans)) == Summary(0, 0, |Incoming(plans)|, 0)
  {
    RowsIdempotent(store.plans, Incoming(plans), now, later);
    ResyncCountsNothing(store.plans, Incoming(plans), now);
  }

  lemma RowsIdempotent(rows: Rows, incoming: map<PassId, Plan>, now: Time, later: Time)
    requires Keyed(incoming)
    ensures var once := Reconciled(rows, incoming, now);
            Reconciled(once, incoming, later) == once
  {
    var once := Reconciled(rows, incoming, now);
    var twice := Reconciled(once, incoming, later);
    forall p | p in once
      ensures p in twice && twice[p] == once[p]
    {
      ResyncSettles(rows, incoming, now, p);
      assert twice[p] == ReconciledRow(once, incoming, later, p);
    }
    SameRows(once, twice);
  }

  lemma ResyncCountsNothing(rows: Rows, incoming: map<PassId, Plan>, now: Time)
    requires Keyed(incoming)
    ensures SummaryOf(Reconciled(rows, incoming, now), incoming) == Summary(0, 0, |incoming|, 0)
  {
    var once := Reconciled(rows, incoming, now);
    forall p | p in once
      ensures p in incoming ==> ChangeFor(once, incoming[p]) == Kept
      ensures p !in incoming ==> once[p].state.Terminal()
    {
      ResyncSettles(rows, incoming, now, p);
    }
    assert Ids(once, incoming, Added) == {};
    assert Ids(once, incoming, Updated) == {};
    assert WithdrawnIds(once, incoming) == {};
    assert Ids(once, incoming, Kept) == incoming.Keys;
  }

  // ---- Execution bookkeeping: each statement is its own autocommitted write ----

  predicate PendingRow(store: Store, p: PassId) {
    p in store.plans && store.plans[p].state.Pending()
  }

  /** The row the due query may return: pending, window still open, earliest rise first. */
  ghost predicate IsNextDue(store: Store, now: Time, p: PassId) {
    && PendingRow(store, p) && store.plans[p].los > now
    && forall q :: PendingRow(store, q) && store.plans[q].los > now ==> store.plans[p].aos <= store.plans[q].aos
  }

  /** The claiming UPDATE, which matches only a pending row. */
  function ClaimRow(store: Store, p: PassId, startedAt: Time, now: Time): Store {
    if PendingRow(store, p)
    then store.(plans := store.plans[p := store.plans[p].(state := Executing, startedAt := Some(startedAt), updatedAt := now)])
    else store
  }

  /** The finishing UPDATE, which is unconditional. */
  function CloseRow(store: Store, p: PassId, state: ExecutionState, detail: string, now: Time): Store {
    if p in store.plans
    then store.(plans := store.plans[p := store.plans[p].(state := state, finishedAt := Some(now), updatedAt := now, detail := detail)])
    else store
  }

  function Record(store: Store, p: PassId, state: ExecutionState, detail: string, now: Time): Store {
    store.(history := store.history + [Entry(p, state, detail, now, false)])
  }

  function Finished(store: Store, p: PassId, state: ExecutionState, detail: string, now: Time): Store {
    Record(CloseRow(store, p, state, detail, now), p, state, detail, now)
  }

  function FinishedAll(store: Store, ids: seq<PassId>, state: ExecutionState, detail: string, now: Time): Store {
    if ids == [] then store
    else Finished(FinishedAll(store, ids[..|ids| - 1], state, detail, now), ids[|ids| - 1], state, detail, now)
  }

  /** Pending rows whose window has closed. */
  function MissedIds(rows: Rows, cutoff: Time): set<PassId> {
    set p | p in rows && rows[p].state.Pending() && rows[p].los <= cutoff
  }

  function InterruptedIds(rows: Rows): set<PassId> {
    set p | p in rows && rows[p].state == Executing
  }

  function Synced(store: Store, ids: set<nat>): Store {
    store.(history := seq(|store.history|, i requires 0 <= i < |store.history| =>
                            if i in ids then store.history[i].(synced := true) else store.history[i]))
  }

  const WINDOW_CLOSED := "execution window closed"
  const RESTARTED := "worker restarted while the pass was executing"

  /** What closing a list of rows leaves behind: those rows in `state` and every other row untouched ... */
  lemma {:induction false} FinishedAllRows(store: Store, ids: seq<PassId>, state: ExecutionState, detail: string, now: Time)
    requires forall p :: p in ids ==> p in store.plans
    ensures var after := FinishedAll(store, ids, state, detail, now).plans;
            && after.Keys == store.plans.Keys
            && (forall p :: p in after ==> if p in ids then after[p].state == state else after[p] == store.plans[p])
  {
    if ids != [] {
      var init := ids[..|ids| - 1];
      assert ids == init + [ids[|ids| - 1]];
      FinishedAllRows(store, init, state, detail, now);
    }
  }

  /** ... and one record each, in order, appended to a history that is otherwise unchanged. */
  lemma {:induction false} FinishedAllHistory(store: Store, ids: seq<PassId>, state: ExecutionState, detail: string, now: Time)
    ensures FinishedAll(store, ids, state, detail, now).history
         == store.history + seq(|ids|, i requires 0 <= i < |ids| => Entry(ids[i], state, detail, now, false))
  {
    if ids != [] {
      FinishedAllHistory(store, ids[..|ids| - 1], state, detail, now);
    }
  }

  // ---- What the statements mean, column by column ----

  /** Of several plans for one pass the last counts. */
  lemma {:induction false} IncomingLastWins(plans: seq<Plan>, k: nat)
    requires k < |plans| && forall j :: k < j < |plans| ==> plans[j].passId != plans[k].passId
    ensures plans[k].passId in Incoming(plans) && Incoming(plans)[plans[k].passId] == plans[k]
    decreases |plans|
  {
    if k < |plans| - 1 { IncomingLastWins(plans[..|plans| - 1], k); }
  }

  /** What a resync leaves in a row: a new plan as received, a changed plan replaced and waiting again, a withdrawn plan
      cancelled, and nothing else touched. */
  lemma ResyncColumns(rows: Rows, incoming: map<PassId, Plan>, now: Time, p: PassId)
    requires Keyed(incoming) && (p in rows || p in incoming)
    ensures p in Reconciled(rows, incoming, now)
    ensures var after := Reconciled(rows, incoming, now)[p];
            if p !in rows then
              after == Row(incoming[p].generation, incoming[p].version, incoming[p].encoded, incoming[p].aos, incoming[p].los,
                           Received, now, now, None, None, "")
            else if rows[p].state in {Completed, Failed, Missed, Cancelled} then
              after == rows[p]
            else if p !in incoming then
              after == rows[p].(state := Cancelled, updatedAt := now, detail := "removed from desired state")
            else if incoming[p].generation == rows[p].generation then
              after == rows[p]
            else
              && after.generation == incoming[p].generation && after.version == incoming[p].version
              && after.encoded == incoming[p].encoded && after.aos == incoming[p].aos && after.los == incoming[p].los
              && after.state == Received && after.updatedAt == now && after.receivedAt == rows[p].receivedAt
              && after.startedAt == rows[p].startedAt && after.finishedAt == rows[p].finishedAt && after.detail == rows[p].detail
  {
  }

  /** The sweep and the due query at one moment divide the waiting rows: each is closed as missed, its window being over, or
      untouched and still claimable. */
  lemma SweptOrClaimable(store: Store, missed: seq<PassId>, cutoff: Time, now: Time)
    requires Lists(missed, MissedIds(store.plans, cutoff))
    ensures var after := FinishedAll(store, missed, Missed, WINDOW_CLOSED, now).plans;
            && after.Keys == store.plans.Keys
            && forall p :: p in after ==>
                 if store.plans[p].state in {Received, Ready} && store.plans[p].los <= cutoff
                 then after[p].state == Missed
                 else after[p] == store.plans[p]
    ensures var after := FinishedAll(store, missed, Missed, WINDOW_CLOSED, now);
            forall p :: PendingRow(after, p) ==> after.plans[p].los > cutoff
  {
    FinishedAllRows(store, missed, Missed, WINDOW_CLOSED, now);
    forall p | p in store.plans
      ensures p in missed <==> store.plans[p].state in {Received, Ready} && store.plans[p].los <= cutoff
    {
    }
  }
}
