/**
  The Worker process: one executor thread stepping through its program against the plan store,
  a synchronisation thread rewriting that store underneath it, and crashes anywhere in between.
  Every store statement is a separate step, so every interleaving and every crash point is a run.
 */
module WorkerCore {
  import opened Basics
  import opened WorkerState

  /** The executor's lead before the rise of a pass, in microseconds. */
  const LEAD: Time := 60_000_000

  /** Where the executor thread is. */
  datatype Executor =
    | Down                                                            // no process
    | Starting                                                        // process up, recovery not begun
    | Idle                                                            // between units of work
    | Closing(todo: seq<PassId>, outcome: ExecutionState, detail: string)          // rows left to finish
    | Writing(passId: PassId, outcome: ExecutionState, detail: string, rest: seq<PassId>) // row finished, record outstanding
    | Picked(passId: PassId)                                          // chosen as due, not yet claimed
    | Claimed(passId: PassId)                                         // row claimed, record outstanding
    | Running(passId: PassId)                                         // handler at work

  /** `starts` counts the handler invocations of each pass over the whole life of the Worker. */
  datatype Core = Core(store: Store, executor: Executor, starts: multiset<PassId>)

  datatype Step =
    | Boot
    | BeginRecovery(ids: seq<PassId>)
    | BeginMissed(ids: seq<PassId>)
    | CloseNext
    | WriteNext
    | Pick(passId: PassId)
    | Claim
    | NoteClaim
    | Finish(succeeded: bool, detail: string)
    | Crash                                                           // the process dies
    | Fault                                                           // a store statement raises; the loop carries on
    | ApplySync(plans: seq<Plan>, generation: Digest)
    | MarkSynced(entries: set<nat>)

  datatype Event = Event(at: Time, step: Step)

  const INIT := Core(Store(map[], [], Digest("")), Down, multiset{})

  /** The effect of one event; an event that cannot happen here changes nothing. */
  ghost function Next(c: Core, e: Event): Core {
    match e.step
    case Boot => if c.executor.Down? then c.(executor := Starting) else c
    case BeginRecovery(ids) =>
      if c.executor.Starting? && Lists(ids, InterruptedIds(c.store.plans)) then c.(executor := Closing(ids, Failed, RESTARTED)) else c
    case BeginMissed(ids) =>
      if c.executor.Idle? && Lists(ids, MissedIds(c.store.plans, e.at)) then c.(executor := Closing(ids, Missed, WINDOW_CLOSED)) else c
    case CloseNext => if c.executor.Closing? then CloseStep(c, e.at) else c
    case WriteNext =>
      if c.executor.Writing? then
        c.(store := Record(c.store, c.executor.passId, c.executor.outcome, c.executor.detail, e.at),
           executor := Closing(c.executor.rest, c.executor.outcome, c.executor.detail))
      else c
    case Pick(p) =>
      if c.executor.Idle? && IsNextDue(c.store, e.at, p) && e.at >= c.store.plans[p].aos - LEAD then c.(executor := Picked(p)) else c
    case Claim => if c.executor.Picked? then ClaimStep(c, e.at) else c
    case NoteClaim =>
      if c.executor.Claimed? then
        Core(Record(c.store, c.executor.passId, Executing, "", e.at), Running(c.executor.passId), c.starts + multiset{c.executor.passId})
      else c
    case Finish(succeeded, detail) =>
      if c.executor.Running? then c.(executor := Closing([c.executor.passId], if succeeded then Completed else Failed, detail)) else c
    case Crash => c.(executor := Down)
    case Fault => if c.executor.Down? then c else c.(executor := Idle)
    case ApplySync(plans, generation) =>
      if c.executor.Down? then c else c.(store := Reconcile(c.store, plans, generation, e.at))
    case MarkSynced(entries) => if c.executor.Down? then c else c.(store := Synced(c.store, entries))
  }

  function CloseStep(c: Core, at: Time): Core
    requires c.executor.Closing?
  {
    var Closing(todo, outcome, detail) := c.executor;
    if todo == [] then c.(executor := Idle)
    else c.(store := CloseRow(c.store, todo[0], outcome, detail, at), executor := Writing(todo[0], outcome, detail, todo[1..]))
  }

  function ClaimStep(c: Core, at: Time): Core
    requires c.executor.Picked?
  {
    var p := c.executor.passId;
    if PendingRow(c.store, p) then c.(store := ClaimRow(c.store, p, at, at), executor := Claimed(p))
    else c.(executor := Idle)
  }

  ghost function RunFrom(c: Core, events: seq<Event>): Core {
    if events == [] then c else Next(RunFrom(c, events[..|events| - 1]), events[|events| - 1])
  }

  ghost function Run(events: seq<Event>): Core {
    RunFrom(INIT, events)
  }

  // ---- At most one outcome per pass, and the row agrees with it ----

  ghost predicate Unrecorded(store: Store, p: PassId) {
    forall i :: 0 <= i < |store.history| && store.history[i].passId == p ==> !store.history[i].state.Terminal()
  }

  /** A row the executor may still finish. */
  ghost predicate Open(store: Store, p: PassId) {
    p in store.plans && Unrecorded(store, p)
  }

  ghost predicate AllOpen(store: Store, ids: seq<PassId>) {
    NoDuplicates(ids) && forall p :: p in ids ==> Open(store, p)
  }

  ghost predicate ExecutorOk(c: Core) {
    match c.executor
    case Closing(todo, outcome, _) => outcome.Outcome() && AllOpen(c.store, todo)
    case Writing(p, outcome, _, rest) =>
      outcome.Outcome() && Open(c.store, p) && AllOpen(c.store, [p] + rest) && c.store.plans[p].state == outcome
    case Picked(p) => Open(c.store, p)
    case Claimed(p) => Open(c.store, p)
    case Running(p) => Open(c.store, p)
    case _ => true
  }

  /** Every terminal record is an outcome, its row is in exactly that state, and it is the pass's only one. */
  ghost predicate RecordsAgree(store: Store) {
    && (forall i :: 0 <= i < |store.history| && store.history[i].state.Terminal() ==>
          && store.history[i].state.Outcome()
          && store.history[i].passId in store.plans
          && store.plans[store.history[i].passId].state == store.history[i].state)
    && (forall i, j :: 0 <= i < j < |store.history| && store.history[i].state.Terminal() && store.history[j].state.Terminal() ==>
          store.history[i].passId != store.history[j].passId)
    && (forall i :: 0 <= i < |store.history| ==> store.history[i].passId in store.plans)
  }

  ghost predicate CoreInv(c: Core) {
    RecordsAgree(c.store) && ExecutorOk(c)
  }

  /** A change of the rows that leaves terminal rows alone keeps every record truthful. */
  lemma RowsMove(before: Store, after: Store)
    requires RecordsAgree(before)
    requires after.history == before.history
    requires before.plans.Keys <= after.plans.Keys
    requires forall p :: p in before.plans && !Unrecorded(before, p) ==> after.plans[p].state == before.plans[p].state
    ensures RecordsAgree(after)
    ensures forall p :: Open(before, p) ==> Open(after, p)
  {
    forall i | 0 <= i < |after.history| && after.history[i].state.Terminal()
      ensures after.plans[after.history[i].passId].state == after.history[i].state
    {
      assert !Unrecorded(before, before.history[i].passId);
    }
  }

  /** Adding a record keeps the others; a terminal record needs an open row already in that state. */
  lemma RecordKeeps(store: Store, p: PassId, state: ExecutionState, detail: string, at: Time)
    requires RecordsAgree(store)
    requires Open(store, p)
    requires state.Terminal() ==> state.Outcome() && store.plans[p].state == state
    ensures var after := Record(store, p, state, detail, at);
            && RecordsAgree(after)
            && (forall q :: q != p || !state.Terminal() ==> (Open(store, q) ==> Open(after, q)))
  {
    var after := Record(store, p, state, detail, at);
    forall q | Open(store, q) && (q != p || !state.Terminal())
      ensures Open(after, q)
    {
    }
  }

  lemma CloseKeeps(c: Core, at: Time)
    requires CoreInv(c) && c.executor.Closing?
    ensures CoreInv(CloseStep(c, at))
  {
    var Closing(todo, outcome, detail) := c.executor;
    if todo != [] {
      var after := CloseRow(c.store, todo[0], outcome, detail, at);
      assert Open(c.store, todo[0]);
      RowsMove(c.store, after);
      assert [todo[0]] + todo[1..] == todo;
    }
  }

  lemma WriteKeeps(c: Core, e: Event)
    requires CoreInv(c) && c.executor.Writing? && e.step.WriteNext?
    ensures CoreInv(Next(c, e))
  {
    var Writing(p, outcome, detail, rest) := c.executor;
    var all := [p] + rest;
    assert all[0] == p && all[1..] == rest;
    RecordKeeps(c.store, p, outcome, detail, e.at);
    forall q | q in rest ensures q != p && Open(c.store, q) {
      var k :| 0 <= k < |rest| && rest[k] == q;
      assert all[k + 1] == q;
    }
    forall i, j | 0 <= i < j < |rest| ensures rest[i] != rest[j] {
      assert all[i + 1] == rest[i] && all[j + 1] == rest[j];
    }
  }

  lemma ClaimKeeps(c: Core, at: Time)
    requires CoreInv(c) && c.executor.Picked?
    ensures CoreInv(ClaimStep(c, at))
  {
    if PendingRow(c.store, c.executor.passId) {
      RowsMove(c.store, ClaimRow(c.store, c.executor.passId, at, at));
    }
  }

  /** Records without an outcome, so unfinished rows are open. */
  lemma UnfinishedIsOpen(store: Store, p: PassId)
    requires RecordsAgree(store)
    requires p in store.plans && !store.plans[p].state.Terminal()
    ensures Open(store, p)
  {
  }

  lemma SyncKeeps(c: Core, plans: seq<Plan>, generation: Digest, at: Time)
    requires CoreInv(c)
    ensures CoreInv(c.(store := Reconcile(c.store, plans, generation, at)))
  {
    var after := Reconcile(c.store, plans, generation, at);
    forall p | p in c.store.plans && !Unrecorded(c.store, p)
      ensures after.plans[p].state == c.store.plans[p].state
    {
      ResyncKeepsRows(c.store.plans, Incoming(plans), at, p);
    }
    RowsMove(c.store, after);
    if c.executor.Writing? {
      ResyncKeepsRows(c.store.plans, Incoming(plans), at, c.executor.passId);
    }
  }

  lemma SyncedKeeps(c: Core, ids: set<nat>)
    requires CoreInv(c)
    ensures CoreInv(c.(store := Synced(c.store, ids)))
  {
    var after := Synced(c.store, ids);
    assert forall i :: 0 <= i < |c.store.history| ==>
        after.history[i].passId == c.store.history[i].passId && after.history[i].state == c.store.history[i].state;
    forall p | Open(c.store, p) ensures Open(after, p) {
    }
  }

  lemma StepKeepsCore(c: Core, e: Event)
    requires CoreInv(c)
    ensures CoreInv(Next(c, e))
  {
    match e.step
    case BeginRecovery(ids) =>
      forall p | p in ids && p in InterruptedIds(c.store.plans) ensures Open(c.store, p) { UnfinishedIsOpen(c.store, p); }
    case BeginMissed(ids) =>
      forall p | p in ids && p in MissedIds(c.store.plans, e.at) ensures Open(c.store, p) { UnfinishedIsOpen(c.store, p); }
    case CloseNext => if c.executor.Closing? { CloseKeeps(c, e.at); }
    case WriteNext => if c.executor.Writing? { WriteKeeps(c, e); }
    case Pick(p) => if PendingRow(c.store, p) { UnfinishedIsOpen(c.store, p); }
    case Claim => if c.executor.Picked? { ClaimKeeps(c, e.at); }
    case NoteClaim => if c.executor.Claimed? { RecordKeeps(c.store, c.executor.passId, Executing, "", e.at); }
    case ApplySync(plans, generation) => SyncKeeps(c, plans, generation, e.at);
    case MarkSynced(entries) => SyncedKeeps(c, entries);
    case _ =>
  }

  lemma {:induction false} RunKeepsCore(c: Core, events: seq<Event>)
    requires CoreInv(c)
    ensures CoreInv(RunFrom(c, events))
  {
    if events != [] {
      RunKeepsCore(c, events[..|events| - 1]);
      StepKeepsCore(RunFrom(c, events[..|events| - 1]), events[|events| - 1]);
    }
  }

  /** Main result: over every run, at most one terminal record per pass, and its row is in exactly that state. */
  lemma AtMostOneOutcome(events: seq<Event>)
    ensures CoreInv(Run(events))
  {
    RunKeepsCore(INIT, events);
  }

  // ---- Terminal states are absorbing, and a recorded outcome is final ----

  ghost predicate Recorded(store: Store, p: PassId) {
    exists i :: 0 <= i < |store.history| && store.history[i].passId == p && store.history[i].state.Outcome()
  }

  /** Whatever happens next, a finished row stays finished ... */
  lemma StepKeepsFinished(c: Core, e: Event, p: PassId)
    requires CoreInv(c)
    requires p in c.store.plans && c.store.plans[p].state.Terminal()
    ensures p in Next(c, e).store.plans && Next(c, e).store.plans[p].state.Terminal()
  {
    if e.step.ApplySync? { ResyncKeepsRows(c.store.plans, Incoming(e.step.plans), e.at, p); }
  }

  /** ... and a row whose outcome is recorded keeps the record and every column. */
  lemma StepKeepsRecorded(c: Core, e: Event, p: PassId)
    requires CoreInv(c)
    requires Recorded(c.store, p)
    ensures Recorded(Next(c, e).store, p)
    ensures p in c.store.plans && p in Next(c, e).store.plans && Next(c, e).store.plans[p] == c.store.plans[p]
  {
    var after := Next(c, e).store;
    var i :| 0 <= i < |c.store.history| && c.store.history[i].passId == p && c.store.history[i].state.Outcome();
    assert !Unrecorded(c.store, p);
    assert after.history[i].passId == p && after.history[i].state == c.store.history[i].state;
    if e.step.ApplySync? { ResyncKeepsRows(c.store.plans, Incoming(e.step.plans), e.at, p); }
    if c.executor.Closing? && c.executor.todo != [] { assert Open(c.store, c.executor.todo[0]); }
  }

  lemma {:induction false} RecordedIsFinal(c: Core, events: seq<Event>, p: PassId)
    requires CoreInv(c)
    requires Recorded(c.store, p)
    ensures p in c.store.plans
    ensures var late := RunFrom(c, events).store;
            Recorded(late, p) && p in late.plans && late.plans[p] == c.store.plans[p]
  {
    if events == [] {
      assert !Unrecorded(c.store, p);
    } else {
      var init := events[..|events| - 1];
      RecordedIsFinal(c, init, p);
      RunKeepsCore(c, init);
      StepKeepsRecorded(RunFrom(c, init), events[|events| - 1], p);
    }
  }

  // ---- At-most-once execution ----

  /** The resync branch that puts an executing row back in the queue. */
  ghost predicate Rearms(c: Core, e: Event, p: PassId) {
    && e.step.ApplySync? && !c.executor.Down?
    && p in c.store.plans && c.store.plans[p].state == Executing
    && p in Incoming(e.step.plans) && Incoming(e.step.plans)[p].generation != c.store.plans[p].generation
  }

  /** The executor's work on `p` is cut short after the handler began and before the row was finished. */
  ghost predicate Interrupts(c: Core, e: Event, p: PassId) {
    (e.step.Crash? || e.step.Fault?) && Holds(c.executor, p)
  }

  predicate Holds(x: Executor, p: PassId) {
    x == Running(p) || (x.Closing? && p in x.todo) || (x.Writing? && p in x.rest)
  }

  /** Exactly one branch of one operation makes a row pending that was not. */
  lemma PendingAgainExactlyByRearming(c: Core, e: Event, p: PassId)
    requires CoreInv(c)
    requires p in c.store.plans && !c.store.plans[p].state.Pending()
    ensures PendingRow(Next(c, e).store, p) <==> Rearms(c, e, p)
  {
  }

  ghost predicate EverRearmed(c: Core, events: seq<Event>, p: PassId) {
    && events != []
    && (EverRearmed(c, events[..|events| - 1], p) || Rearms(RunFrom(c, events[..|events| - 1]), events[|events| - 1], p))
  }

  ghost predicate EverInterrupted(c: Core, events: seq<Event>, p: PassId) {
    && events != []
    && (EverInterrupted(c, events[..|events| - 1], p) || Interrupts(RunFrom(c, events[..|events| - 1]), events[|events| - 1], p))
  }

  /** Without rearming: once begun, a pass is never pending again. */
  ghost predicate BegunNotPending(c: Core, p: PassId) {
    && c.starts[p] <= 1
    && (c.starts[p] == 1 || c.executor == Claimed(p) ==> p in c.store.plans && !PendingRow(c.store, p))
    && (c.executor == Claimed(p) ==> c.starts[p] == 0)
  }

  /** Without interruption: once begun, a pass is in the executor's hands until its row is finished. */
  ghost predicate BegunInHand(c: Core, p: PassId) {
    && c.starts[p] <= 1
    && (c.starts[p] == 1 ==> p in c.store.plans && (Holds(c.executor, p) || c.store.plans[p].state.Terminal()))
    && (c.executor == Claimed(p) ==> c.starts[p] == 0)
  }

  lemma StepWithoutRearming(c: Core, e: Event, p: PassId)
    requires CoreInv(c) && BegunNotPending(c, p) && !Rearms(c, e, p)
    ensures BegunNotPending(Next(c, e), p)
  {
    if p in c.store.plans && !c.store.plans[p].state.Pending() {
      PendingAgainExactlyByRearming(c, e, p);
    }
  }

  lemma StepWithoutInterruption(c: Core, e: Event, p: PassId)
    requires CoreInv(c) && BegunInHand(c, p) && !Interrupts(c, e, p)
    ensures BegunInHand(Next(c, e), p)
  {
    if p in c.store.plans && c.store.plans[p].state.Terminal() {
      StepKeepsFinished(c, e, p);
    }
    if e.step.ApplySync? && p in c.store.plans { ResyncKeepsRows(c.store.plans, Incoming(e.step.plans), e.at, p); }
    if e.step.CloseNext? && c.executor.Closing? && c.executor.todo != [] {
      assert forall q :: q in c.executor.todo <==> q == c.executor.todo[0] || q in c.executor.todo[1..];
    }
  }

  /**
    Main result: the handler runs a second time for a pass only in a run that both put its executing row back in
    the queue and lost the executor while it held the pass. Either alone is harmless.
   */
  lemma {:induction false} AtMostOnce(events: seq<Event>, p: PassId)
    ensures !EverRearmed(INIT, events, p) ==> BegunNotPending(Run(events), p)
    ensures !EverInterrupted(INIT, events, p) ==> BegunInHand(Run(events), p)
    ensures Run(events).starts[p] >= 2 ==> EverRearmed(INIT, events, p) && EverInterrupted(INIT, events, p)
  {
    if events != [] {
      var init, last := events[..|events| - 1], events[|events| - 1];
      AtMostOnce(init, p);
      AtMostOneOutcome(init);
      if !EverRearmed(INIT, events, p) { StepWithoutRearming(Run(init), last, p); }
      if !EverInterrupted(INIT, events, p) { StepWithoutInterruption(Run(init), last, p); }
    }
  }

  // ---- When a second execution is possible ----

  /** Out of the queue and not about to begin. */
  ghost predicate Parked(c: Core, p: PassId) {
    p in c.store.plans && !PendingRow(c.store, p) && c.executor != Claimed(p)
  }

  lemma StepKeepsParked(c: Core, e: Event, p: PassId)
    requires CoreInv(c) && Parked(c, p) && !Rearms(c, e, p)
    ensures Parked(Next(c, e), p) && Next(c, e).starts[p] == c.starts[p]
  {
    PendingAgainExactlyByRearming(c, e, p);
  }

  /** A begun pass that is not in the queue is never begun again, as long as no resync rearms it. */
  lemma {:induction false} NotPendingNotAgain(c: Core, events: seq<Event>, p: PassId)
    requires CoreInv(c) && Parked(c, p)
    requires !EverRearmed(c, events, p)
    ensures Parked(RunFrom(c, events), p) && RunFrom(c, events).starts[p] == c.starts[p]
  {
    if events != [] {
      var init := events[..|events| - 1];
      NotPendingNotAgain(c, init, p);
      RunKeepsCore(c, init);
      StepKeepsParked(RunFrom(c, init), events[|events| - 1], p);
    }
  }

  /** Some run from `c` to `d` without rearming `p`. */
  ghost predicate Leads(c: Core, d: Core, p: PassId) {
    exists events :: RunFrom(c, events) == d && !EverRearmed(c, events, p)
  }

  lemma Stays(c: Core, p: PassId)
    ensures Leads(c, c, p)
  {
    assert RunFrom(c, []) == c && !EverRearmed(c, [], p);
  }

  lemma Onward(c: Core, d: Core, e: Event, p: PassId)
    requires Leads(c, d, p)
    requires !Rearms(d, e, p)
    ensures Leads(c, Next(d, e), p)
  {
    var events :| RunFrom(c, events) == d && !EverRearmed(c, events, p);
    var longer := events + [e];
    assert longer[..|longer| - 1] == events;
    assert RunFrom(c, longer) == Next(d, e) && !EverRearmed(c, longer, p);
  }

  /** Restart and receive a desired state holding this pass alone: every other unfinished plan is withdrawn. */
  lemma RestartAlone(c: Core, p: PassId) returns (d: Core)
    requires PendingRow(c.store, p)
    ensures Leads(c, d, p)
    ensures d.executor.Starting? && d.starts == c.starts
    ensures p in d.store.plans && d.store.plans[p] == c.store.plans[p]
    ensures forall q :: q in d.store.plans && q != p ==> d.store.plans[q].state.Terminal()
  {
    var row := c.store.plans[p];
    var plans := [Plan(p, row.generation, row.version, row.encoded, row.aos, row.los)];
    assert Incoming(plans[..0]) == map[];
    assert Incoming(plans) == map[p := plans[0]];
    Stays(c, p);
    Onward(c, c, Event(0, Crash), p);
    var down := Next(c, Event(0, Crash));
    Onward(c, down, Event(0, Boot), p);
    var up := Next(down, Event(0, Boot));
    Onward(c, up, Event(0, ApplySync(plans, c.store.generation)), p);
    d := Next(up, Event(0, ApplySync(plans, c.store.generation)));
  }

  /** From there the executor recovers nothing and goes idle ... */
  lemma RecoverNothing(c: Core, d: Core, p: PassId)
    requires Leads(c, d, p)
    requires d.executor.Starting?
    requires PendingRow(d.store, p)
    requires forall q :: q in d.store.plans && q != p ==> d.store.plans[q].state.Terminal()
    ensures Leads(c, d.(executor := Idle), p)
  {
    assert forall q :: q !in InterruptedIds(d.store.plans);
    var recovering := d.(executor := Closing([], Failed, RESTARTED));
    assert Next(d, Event(0, BeginRecovery([]))) == recovering;
    Onward(c, d, Event(0, BeginRecovery([])), p);
    Onward(c, recovering, Event(0, CloseNext), p);
  }

  /** ... finds the pass due and begins it. */
  lemma BeginAlone(c: Core, d: Core, p: PassId) returns (begun: Core)
    requires Leads(c, d, p)
    requires d.executor.Starting?
    requires PendingRow(d.store, p) && d.store.plans[p].aos < d.store.plans[p].los
    requires forall q :: q in d.store.plans && q != p ==> d.store.plans[q].state.Terminal()
    ensures Leads(c, begun, p)
    ensures begun.starts == d.starts + multiset{p}
    ensures begun.executor == Running(p)
    ensures begun.store.plans == ClaimRow(d.store, p, d.store.plans[p].aos - LEAD, d.store.plans[p].aos - LEAD).plans
  {
    var at := d.store.plans[p].aos - LEAD;
    RecoverNothing(c, d, p);
    var idle, picked := d.(executor := Idle), d.(executor := Picked(p));
    PickAlone(idle, p, at);
    Onward(c, idle, Event(at, Pick(p)), p);
    Onward(c, picked, Event(at, Claim), p);
    var claimed := Core(ClaimRow(d.store, p, at, at), Claimed(p), d.starts);
    begun := BeginClaimed(c, claimed, p, at);
  }

  lemma PickAlone(idle: Core, p: PassId, at: Time)
    requires idle.executor.Idle? && PendingRow(idle.store, p)
    requires idle.store.plans[p].aos - LEAD == at < idle.store.plans[p].los
    requires forall q :: q in idle.store.plans && q != p ==> idle.store.plans[q].state.Terminal()
    ensures Next(idle, Event(at, Pick(p))) == idle.(executor := Picked(p))
  {
    assert IsNextDue(idle.store, at, p);
  }

  lemma BeginClaimed(c: Core, claimed: Core, p: PassId, at: Time) returns (begun: Core)
    requires Leads(c, claimed, p) && claimed.executor == Claimed(p)
    ensures Leads(c, begun, p) && begun.executor == Running(p)
    ensures begun.starts == claimed.starts + multiset{p} && begun.store.plans == claimed.store.plans
  {
    Onward(c, claimed, Event(at, NoteClaim), p);
    begun := Next(claimed, Event(at, NoteClaim));
  }

  /** Main result: a pass already begun can be begun again, without further rearming, exactly when its row is pending. */
  lemma SecondExecutionExactlyWhenPending(c: Core, p: PassId)
    requires CoreInv(c)
    requires p in c.store.plans && c.store.plans[p].aos < c.store.plans[p].los
    requires c.executor != Claimed(p)
    ensures (exists events :: !EverRearmed(c, events, p) && RunFrom(c, events).starts[p] > c.starts[p]) <==> PendingRow(c.store, p)
  {
    if PendingRow(c.store, p) {
      var d := RestartAlone(c, p);
      var begun := BeginAlone(c, d, p);
      var events :| RunFrom(c, events) == begun && !EverRearmed(c, events, p);
      assert RunFrom(c, events).starts[p] > c.starts[p];
    } else {
      forall events | !EverRearmed(c, events, p) ensures RunFrom(c, events).starts[p] == c.starts[p] {
        NotPendingNotAgain(c, events, p);
      }
    }
  }

  lemma {:induction false} RunFromAppend(c: Core, a: seq<Event>, b: seq<Event>)
    ensures RunFrom(c, a + b) == RunFrom(RunFrom(c, a), b)
  {
    if b == [] {
      assert a + b == a;
    } else {
      assert (a + b)[..|a + b| - 1] == a + b[..|b| - 1];
      RunFromAppend(c, a, b[..|b| - 1]);
    }
  }

  lemma SinglePlan(plan: Plan)
    ensures Incoming([plan]) == map[plan.passId := plan]
  {
    assert Incoming([plan][..0]) == map[];
  }

  /** A first execution, in progress. */
  lemma BegunOnce(p: PassId) returns (events: seq<Event>)
    ensures Run(events).executor == Running(p) && Run(events).starts == multiset{p}
    ensures Run(events).store.plans.Keys == {p}
    ensures var row := Run(events).store.plans[p]; row.state == Executing && row.aos < row.los && row.generation == Digest("a")
  {
    var plan := Plan(p, Digest("a"), 1, "", 0, 1);
    SinglePlan(plan);
    Stays(INIT, p);
    Onward(INIT, INIT, Event(0, Boot), p);
    var up := INIT.(executor := Starting);
    Onward(INIT, up, Event(0, ApplySync([plan], Digest("s"))), p);
    var begun := BeginAlone(INIT, Next(up, Event(0, ApplySync([plan], Digest("s")))), p);
    events :| RunFrom(INIT, events) == begun && !EverRearmed(INIT, events, p);
  }

  /** A resync with a new generation arrives meanwhile and puts the row back in the queue. */
  lemma RearmedWhileRunning(p: PassId) returns (events: seq<Event>)
    ensures PendingRow(Run(events).store, p) && Run(events).starts == multiset{p}
    ensures Run(events).store.plans[p].aos < Run(events).store.plans[p].los
  {
    var begun := BegunOnce(p);
    var plan := Plan(p, Digest("b"), 1, "", 0, 1);
    SinglePlan(plan);
    assert plan.generation.hex[0] != Digest("a").hex[0];
    var rearm := Event(0, ApplySync([plan], Digest("t")));
    RunFromSnoc(begun, rearm);
    events := begun + [rearm];
  }

  /** The condition is not vacuous: rearming during an execution and then a restart begins a pass twice. */
  lemma HandlerCanRunTwice(p: PassId)
    ensures exists events :: Run(events).starts[p] == 2
  {
    var events := RearmedWhileRunning(p);
    var rearmed := Run(events);
    var alone := RestartAlone(rearmed, p);
    var again := BeginAlone(rearmed, alone, p);
    var more :| RunFrom(rearmed, more) == again && !EverRearmed(rearmed, more, p);
    RunFromAppend(INIT, events, more);
    assert Run(events + more).starts[p] == 2;
  }

  lemma RunFromSnoc(events: seq<Event>, e: Event)
    ensures Run(events + [e]) == Next(Run(events), e)
  {
    assert (events + [e])[..|events|] == events;
  }

  // ---- When an outcome goes unrecorded ----

  /** The process is lost between finishing the row and inserting its record. */
  ghost predicate LosesRecord(c: Core, e: Event, p: PassId) {
    (e.step.Crash? || e.step.Fault?) && c.executor.Writing? && c.executor.passId == p
  }

  ghost predicate EverLosesRecord(c: Core, events: seq<Event>, p: PassId) {
    && events != []
    && (EverLosesRecord(c, events[..|events| - 1], p) || LosesRecord(RunFrom(c, events[..|events| - 1]), events[|events| - 1], p))
  }

  predicate Touches(x: Executor, p: PassId) {
    match x
    case Closing(todo, _, _) => p in todo
    case Writing(q, _, _, rest) => q == p || p in rest
    case Picked(q) => q == p
    case Claimed(q) => q == p
    case Running(q) => q == p
    case _ => false
  }

  ghost predicate HasOutcome(c: Core, p: PassId) {
    p in c.store.plans && c.store.plans[p].state.Outcome()
  }

  /** A finished row is recorded, is being recorded, or lost its record for good. */
  ghost predicate RecordInv(c: Core, p: PassId, lost: bool) {
    && (HasOutcome(c, p) && !lost ==> Recorded(c.store, p) || (c.executor.Writing? && c.executor.passId == p))
    && (lost ==> HasOutcome(c, p) && Unrecorded(c.store, p) && !Touches(c.executor, p))
  }

  lemma LostStaysLost(c: Core, e: Event, p: PassId)
    requires CoreInv(c) && RecordInv(c, p, true)
    ensures RecordInv(Next(c, e), p, true)
  {
    match e.step
    case ApplySync(plans, _) => ResyncKeepsRows(c.store.plans, Incoming(plans), e.at, p);
    case CloseNext =>
      if c.executor.Closing? && c.executor.todo != [] {
        assert c.executor.todo[0] in c.executor.todo;
        assert forall q :: q in c.executor.todo[1..] ==> q in c.executor.todo;
      }
    case _ =>
  }

  lemma RecordStep(c: Core, e: Event, p: PassId)
    requires CoreInv(c) && RecordInv(c, p, false)
    ensures RecordInv(Next(c, e), p, LosesRecord(c, e, p))
  {
    var after := Next(c, e);
    if Recorded(c.store, p) {
      StepKeepsRecorded(c, e, p);
    } else if LosesRecord(c, e, p) {
    } else if HasOutcome(after, p) && e.step.WriteNext? && c.executor.Writing? && c.executor.passId == p {
      assert after.store.history[|c.store.history|].passId == p;
    }
  }

  /** Main result: a finished pass has no record, now or ever, exactly when the process died between the two statements. */
  lemma {:induction false} UnrecordedExactlyWhenLost(events: seq<Event>, p: PassId)
    ensures RecordInv(Run(events), p, EverLosesRecord(INIT, events, p))
    ensures HasOutcome(Run(events), p) && !Run(events).executor.Writing? ==>
              (Recorded(Run(events).store, p) <==> !EverLosesRecord(INIT, events, p))
  {
    if events != [] {
      var init, last := events[..|events| - 1], events[|events| - 1];
      UnrecordedExactlyWhenLost(init, p);
      AtMostOneOutcome(init);
      if EverLosesRecord(INIT, init, p) { LostStaysLost(Run(init), last, p); } else { RecordStep(Run(init), last, p); }
    }
  }

  /** The condition is not vacuous: a crash right after the row of a running pass was finished loses its record. */
  lemma RecordCanBeLost(p: PassId)
    ensures exists events ::
              EverLosesRecord(INIT, events, p) && HasOutcome(Run(events), p) && !Recorded(Run(events).store, p)
  {
    var begun := BegunOnce(p);
    var finishing := begun + [Event(0, Finish(true, ""))];
    var closed := finishing + [Event(0, CloseNext)];
    var crashed := closed + [Event(0, Crash)];
    RunFromSnoc(begun, Event(0, Finish(true, "")));
    RunFromSnoc(finishing, Event(0, CloseNext));
    RunFromSnoc(closed, Event(0, Crash));
    assert crashed[..|crashed| - 1] == closed;
    assert EverLosesRecord(INIT, crashed, p);
    UnrecordedExactlyWhenLost(crashed, p);
  }

  /** A handler that returns is closed and recorded by what it returned, and by nothing else. */
  lemma VerdictIsRecorded(c: Core, succeeded: bool, detail: string, at: Time)
    requires c.executor.Running? && c.executor.passId in c.store.plans
    ensures var done := Next(Next(Next(c, Event(at, Finish(succeeded, detail))), Event(at, CloseNext)), Event(at, WriteNext));
            var p := c.executor.passId;
            && p in done.store.plans && done.store.plans[p].state == (if succeeded then Completed else Failed)
            && done.store.plans[p].detail == detail && done.store.plans[p].finishedAt == Some(at)
            && done.store.history == c.store.history + [Entry(p, if succeeded then Completed else Failed, detail, at, false)]
            && forall q :: q in c.store.plans && q != p ==> q in done.store.plans && done.store.plans[q] == c.store.plans[q]
  {
    assert [c.executor.passId][1..] == [];
  }

  // ---- Left alone, the steps are the store's operations ----

  /** The statements that close a list of rows, and the return to idle. */
  function CloseEvents(n: nat, at: Time): seq<Event> {
    if n == 0 then [Event(at, CloseNext)] else [Event(at, CloseNext), Event(at, WriteNext)] + CloseEvents(n - 1, at)
  }

  lemma {:induction false} FinishedAllFromFront(store: Store, p: PassId, rest: seq<PassId>, state: ExecutionState, detail: string, at: Time)
    ensures FinishedAll(store, [p] + rest, state, detail, at) == FinishedAll(Finished(store, p, state, detail, at), rest, state, detail, at)
    decreases |rest|
  {
    var all := [p] + rest;
    if rest == [] {
      assert all[..0] == [];
    } else {
      assert all[..|all| - 1] == [p] + rest[..|rest| - 1];
      FinishedAllFromFront(store, p, rest[..|rest| - 1], state, detail, at);
    }
  }

  lemma CloseOne(c: Core, at: Time)
    requires c.executor.Closing? && c.executor.todo != []
    ensures var Closing(todo, outcome, detail) := c.executor;
            Next(Next(c, Event(at, CloseNext)), Event(at, WriteNext))
            == c.(store := Finished(c.store, todo[0], outcome, detail, at), executor := Closing(todo[1..], outcome, detail))
  {
  }

  lemma {:induction false} UninterruptedCloses(c: Core, at: Time)
    requires c.executor.Closing?
    ensures RunFrom(c, CloseEvents(|c.executor.todo|, at))
         == c.(store := FinishedAll(c.store, c.executor.todo, c.executor.outcome, c.executor.detail, at), executor := Idle)
    decreases |c.executor.todo|
  {
    var Closing(todo, outcome, detail) := c.executor;
    if todo == [] {
      RunFromSingle(c, Event(at, CloseNext));
    } else {
      var first := [Event(at, CloseNext), Event(at, WriteNext)];
      var after := c.(store := Finished(c.store, todo[0], outcome, detail, at), executor := Closing(todo[1..], outcome, detail));
      CloseOne(c, at);
      assert first[..1] == [Event(at, CloseNext)];
      RunFromSingle(c, Event(at, CloseNext));
      assert RunFrom(c, first) == after;
      UninterruptedCloses(after, at);
      RunFromAppend(c, first, CloseEvents(|todo| - 1, at));
      assert [todo[0]] + todo[1..] == todo;
      FinishedAllFromFront(c.store, todo[0], todo[1..], outcome, detail, at);
    }
  }

  lemma RunFromSingle(c: Core, e: Event)
    ensures RunFrom(c, [e]) == Next(c, e)
  {
    assert [e][..0] == [];
  }

  /** Recovery left alone fails exactly the executing rows, as the store's operation does ... */
  lemma RecoveryCompletes(c: Core, ids: seq<PassId>, at: Time)
    requires c.executor.Starting? && Lists(ids, InterruptedIds(c.store.plans))
    ensures RunFrom(c, [Event(at, BeginRecovery(ids))] + CloseEvents(|ids|, at))
         == c.(store := FinishedAll(c.store, ids, Failed, "worker restarted while the pass was executing", at), executor := Idle)
  {
    var begun := c.(executor := Closing(ids, Failed, RESTARTED));
    RunFromAppend(c, [Event(at, BeginRecovery(ids))], CloseEvents(|ids|, at));
    RunFromSingle(c, Event(at, BeginRecovery(ids)));
    UninterruptedCloses(begun, at);
  }

  /** ... the sweep closes exactly the rows whose window is over ... */
  lemma SweepCompletes(c: Core, ids: seq<PassId>, at: Time)
    requires c.executor.Idle? && Lists(ids, MissedIds(c.store.plans, at))
    ensures RunFrom(c, [Event(at, BeginMissed(ids))] + CloseEvents(|ids|, at))
         == c.(store := FinishedAll(c.store, ids, Missed, "execution window closed", at))
  {
    var begun := c.(executor := Closing(ids, Missed, WINDOW_CLOSED));
    RunFromAppend(c, [Event(at, BeginMissed(ids))], CloseEvents(|ids|, at));
    RunFromSingle(c, Event(at, BeginMissed(ids)));
    UninterruptedCloses(begun, at);
  }

  /** ... and a pass is picked exactly when it waits, its window is open, it is within the lead of its rise, and no other
      such pass rises before it; picked, it is claimed and begun unless a resync took it out of the queue. */
  lemma PickedExactlyWhenDue(c: Core, p: PassId, at: Time)
    requires c.executor.Idle?
    ensures Next(c, Event(at, Pick(p))).executor == Picked(p) <==>
              && p in c.store.plans && c.store.plans[p].state in {Received, Ready}
              && c.store.plans[p].aos - 60_000_000 <= at < c.store.plans[p].los
              && forall q :: q in c.store.plans && c.store.plans[q].state in {Received, Ready} && c.store.plans[q].los > at ==>
                   c.store.plans[p].aos <= c.store.plans[q].aos
  {
    forall q | q in c.store.plans ensures PendingRow(c.store, q) <==> c.store.plans[q].state in {Received, Ready} {
    }
  }

  lemma ClaimBegins(c: Core, at: Time)
    requires c.executor.Picked?
    ensures var p := c.executor.passId;
            var after := Next(Next(c, Event(at, Claim)), Event(at, NoteClaim));
            if p in c.store.plans && c.store.plans[p].state in {Received, Ready} then
              && after.executor == Running(p) && after.starts == c.starts + multiset{p}
              && after.store.plans == c.store.plans[p := c.store.plans[p].(state := Executing, startedAt := Some(at), updatedAt := at)]
              && after.store.history == c.store.history + [Entry(p, Executing, "", at, false)]
            else after == c.(executor := Idle)
  {
  }
}
