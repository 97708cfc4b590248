/**
  A run of the whole protocol in which the handler is invoked twice for one pass: a second plan of the pass reaches the
  Worker while the first is executing, and the process is lost before it finishes.
 */
module SecondExecution {
  import opened Basics
  import opened WorkerState
  import opened WorkerCore
  import opened Protocol
  import PassTable
  import Scheduling

  /** A pass that can be booked and is due at once, and two plans for it that differ in their generation. */
  datatype Scene = Scene(station: PassTable.StationId, p: PassId, pass: PassTable.Pass, first: Plan, second: Plan)

  ghost predicate PlanFor(h: Hashes, scene: Scene, plan: Plan) {
    && plan.passId == scene.p && plan.aos == scene.pass.aos && plan.los == scene.pass.los
    && Minted(h, plan) && SupportedVersion(plan)
  }

  ghost predicate Playable(h: Hashes, scene: Scene) {
    && scene.pass.station == scene.station && scene.pass.status == PassTable.PendingApproval && PassTable.RowChecks(scene.pass)
    && scene.pass.aos - LEAD <= 0 < scene.pass.los
    && PlanFor(h, scene, scene.first) && PlanFor(h, scene, scene.second)
    && scene.first.generation != scene.second.generation
  }

  ghost predicate Reached(h: Hashes, scene: Scene, s: System) {
    exists steps :: Protocol.Run(h, scene.station, steps) == s
  }

  lemma Began(h: Hashes, scene: Scene)
    ensures Reached(h, scene, START)
  {
    assert Protocol.Run(h, scene.station, []) == START;
  }

  lemma Onwards(h: Hashes, scene: Scene, s: System, step: Protocol.Step)
    requires Reached(h, scene, s)
    ensures Reached(h, scene, Protocol.Next(h, scene.station, s, step))
  {
    var steps :| Protocol.Run(h, scene.station, steps) == s;
    var longer := steps + [step];
    assert longer[..|longer| - 1] == steps;
    assert Protocol.Run(h, scene.station, longer) == Protocol.Next(h, scene.station, s, step);
  }

  /** The pass is approved, it is the only one, and the clock has not moved. */
  ghost predicate Approved(scene: Scene, s: System) {
    && s.now == 0 && s.db.passes.Keys == {scene.p}
    && s.db.passes[scene.p].station == scene.station && s.db.passes[scene.p].status == PassTable.Approved
    && s.db.passes[scene.p].aos == scene.pass.aos && s.db.passes[scene.p].los == scene.pass.los
    && (forall q :: q in s.planned ==> q == scene.p)
  }

  lemma Book(h: Hashes, scene: Scene) returns (s: System)
    requires Playable(h, scene)
    ensures Reached(h, scene, s) && Approved(scene, s) && s.planned == map[] && s.core == INIT
  {
    var station := scene.station;
    Began(h, scene);
    var request := Schedule(Scheduling.Request(scene.p, scene.pass));
    Onwards(h, scene, START, request);
    assert PassTable.Conflicts(map[], scene.pass.station, scene.pass.reserved) == {};
    var requested := Protocol.Next(h, station, START, request);
    var approve := Schedule(Scheduling.ApproveOp(scene.p, scene.pass.requestedBy, 0));
    Onwards(h, scene, requested, approve);
    s := Protocol.Next(h, station, requested, approve);
  }

  /** A new plan is stored, listed, sent and applied. */
  lemma Deliver(h: Hashes, scene: Scene, s: System, plan: Plan) returns (after: System)
    requires Playable(h, scene) && Reached(h, scene, s) && Approved(scene, s) && PlanFor(h, scene, plan)
    requires scene.p in s.planned ==> s.planned[scene.p].generation != plan.generation
    requires !s.core.executor.Down?
    ensures Reached(h, scene, after) && Approved(scene, after) && after.planned == map[scene.p := plan]
    ensures after.core == WorkerCore.Next(s.core, Event(0, ApplySync([plan], SetGeneration(h, [plan]))))
  {
    Onwards(h, scene, s, StorePlan(plan));
    var stored := Protocol.Next(h, scene.station, s, StorePlan(plan));
    assert stored == s.(planned := map[scene.p := plan]);
    after := Listed(h, scene, stored, plan);
  }

  lemma Listed(h: Hashes, scene: Scene, s: System, plan: Plan) returns (after: System)
    requires Playable(h, scene) && Reached(h, scene, s) && Approved(scene, s) && PlanFor(h, scene, plan)
    requires s.planned == map[scene.p := plan] && !s.core.executor.Down?
    ensures Reached(h, scene, after) && Approved(scene, after) && after.planned == s.planned
    ensures after.core == WorkerCore.Next(s.core, Event(0, ApplySync([plan], SetGeneration(h, [plan]))))
  {
    assert IsListing(s, scene.station, [plan]) by {
      assert [plan][0].passId == scene.p;
    }
    var answer := Response([plan], SetGeneration(h, [plan]));
    Onwards(h, scene, s, AnswerSync([plan]));
    var answered := Protocol.Next(h, scene.station, s, AnswerSync([plan]));
    assert answered == s.(responses := s.responses + {answer});
    Onwards(h, scene, answered, TakeSync(answer));
    after := Protocol.Next(h, scene.station, answered, TakeSync(answer));
    SupportedSingle(plan);
  }

  lemma SupportedSingle(plan: Plan)
    requires SupportedVersion(plan)
    ensures Supported([plan]) == [plan]
  {
    assert [plan][..0] == [];
    assert Supported([]) == [];
  }

  /** One step of the executor. */
  lemma Does(h: Hashes, scene: Scene, s: System, step: WorkerCore.Step) returns (after: System)
    requires Reached(h, scene, s) && Approved(scene, s) && Protocol.Executor(step)
    ensures Reached(h, scene, after) && Approved(scene, after) && after.planned == s.planned
    ensures after.core == WorkerCore.Next(s.core, Event(0, step))
  {
    Onwards(h, scene, s, Protocol.Execute(step));
    after := Protocol.Next(h, scene.station, s, Protocol.Execute(step));
  }

  /** The Worker holds this one plan. */
  ghost predicate Holding(scene: Scene, c: Core, plan: Plan, state: ExecutionState) {
    && c.store.plans.Keys == {scene.p}
    && c.store.plans[scene.p].state == state && c.store.plans[scene.p].generation == plan.generation
    && c.store.plans[scene.p].aos == scene.pass.aos && c.store.plans[scene.p].los == scene.pass.los
  }

  /** A freshly started executor with this one plan waiting finds nothing to recover ... */
  lemma Recover(h: Hashes, scene: Scene, s: System, plan: Plan) returns (idle: System)
    requires Reached(h, scene, s) && Approved(scene, s)
    requires s.core.executor == Starting && Holding(scene, s.core, plan, Received)
    ensures Reached(h, scene, idle) && Approved(scene, idle) && idle.planned == s.planned
    ensures idle.core == s.core.(executor := Idle)
  {
    var recovering := Does(h, scene, s, BeginRecovery([]));
    assert InterruptedIds(s.core.store.plans) == {};
    assert recovering.core == s.core.(executor := Closing([], Failed, RESTARTED));
    idle := Does(h, scene, recovering, CloseNext);
  }

  lemma PicksIt(scene: Scene, c: Core, plan: Plan)
    requires Holding(scene, c, plan, Received) && c.executor == Idle && scene.pass.aos - LEAD <= 0 < scene.pass.los
    ensures WorkerCore.Next(c, Event(0, Pick(scene.p))) == c.(executor := Picked(scene.p))
  {
    assert IsNextDue(c.store, 0, scene.p);
  }

  lemma ClaimsIt(scene: Scene, c: Core, plan: Plan)
    requires Holding(scene, c, plan, Received) && c.executor == Picked(scene.p)
    ensures var after := WorkerCore.Next(c, Event(0, Claim));
            Holding(scene, after, plan, Executing) && after.executor == Claimed(scene.p) && after.starts == c.starts
  {
  }

  lemma NotesIt(scene: Scene, c: Core, plan: Plan)
    requires Holding(scene, c, plan, Executing) && c.executor == Claimed(scene.p)
    ensures var after := WorkerCore.Next(c, Event(0, NoteClaim));
            Holding(scene, after, plan, Executing) && after.executor == Running(scene.p) && after.starts == c.starts + multiset{scene.p}
  {
  }

  /** ... and begins it. */
  lemma Begin(h: Hashes, scene: Scene, s: System, plan: Plan) returns (after: System)
    requires Playable(h, scene) && Reached(h, scene, s) && Approved(scene, s)
    requires s.core.executor == Starting && Holding(scene, s.core, plan, Received)
    ensures Reached(h, scene, after) && Approved(scene, after) && after.planned == s.planned
    ensures after.core.executor == Running(scene.p) && Holding(scene, after.core, plan, Executing)
    ensures after.core.starts == s.core.starts + multiset{scene.p}
  {
    var idle := Recover(h, scene, s, plan);
    PicksIt(scene, idle.core, plan);
    var picked := Does(h, scene, idle, Pick(scene.p));
    ClaimsIt(scene, picked.core, plan);
    var claimed := Does(h, scene, picked, Claim);
    NotesIt(scene, claimed.core, plan);
    after := Does(h, scene, claimed, NoteClaim);
  }

  lemma SyncHolds(scene: Scene, c: Core, plan: Plan, generation: Digest)
    requires plan.passId == scene.p && plan.aos == scene.pass.aos && plan.los == scene.pass.los && !c.executor.Down?
    requires c.store.plans == map[] || exists earlier :: Holding(scene, c, earlier, Executing) && earlier.generation != plan.generation
    ensures var after := WorkerCore.Next(c, Event(0, ApplySync([plan], generation)));
            Holding(scene, after, plan, Received) && after.executor == c.executor && after.starts == c.starts
  {
    SinglePlan(plan);
  }

  lemma Restart(h: Hashes, scene: Scene, s: System) returns (after: System)
    requires Reached(h, scene, s) && Approved(scene, s)
    ensures Reached(h, scene, after) && Approved(scene, after) && after.planned == s.planned
    ensures after.core == s.core.(executor := Starting)
  {
    var crashed := Does(h, scene, s, Crash);
    after := Does(h, scene, crashed, Boot);
  }

  /** Main result: the protocol has a run in which the handler is invoked twice for the same pass. */
  lemma HandlerRunsTwice(h: Hashes, scene: Scene)
    requires Playable(h, scene)
    ensures exists steps :: Protocol.Run(h, scene.station, steps).core.starts[scene.p] == 2
  {
    var booked := Book(h, scene);
    var up := Does(h, scene, booked, Boot);
    SyncHolds(scene, up.core, scene.first, SetGeneration(h, [scene.first]));
    var ready := Deliver(h, scene, up, scene.first);
    var running := Begin(h, scene, ready, scene.first);
    SyncHolds(scene, running.core, scene.second, SetGeneration(h, [scene.second]));
    var rearmed := Deliver(h, scene, running, scene.second);
    var again := Restart(h, scene, rearmed);
    var twice := Begin(h, scene, again, scene.second);
    var steps :| Protocol.Run(h, scene.station, steps) == twice;
    assert Protocol.Run(h, scene.station, steps).core.starts[scene.p] == 2;
  }

  /** Such a scene exists for every hash that tells two encodings of one plan apart. */
  lemma SceneExists(h: Hashes, p: PassId, station: PassTable.StationId, user: PassTable.UserId, one: string, other: string)
    requires h.ofPlan(PlanBody(p, 1, one, 0, 1)) != h.ofPlan(PlanBody(p, 1, other, 0, 1))
    ensures exists scene :: Playable(h, scene) && scene.p == p && scene.station == station
  {
    var pass := PassTable.Pass(station, user, PassTable.PendingApproval, 0, 1, PassTable.Reservation(0, 1), 0, 0, None, None);
    var first := Plan(p, h.ofPlan(PlanBody(p, 1, one, 0, 1)), 1, one, 0, 1);
    var second := Plan(p, h.ofPlan(PlanBody(p, 1, other, 0, 1)), 1, other, 0, 1);
    assert Playable(h, Scene(station, p, pass, first, second));
  }
}
