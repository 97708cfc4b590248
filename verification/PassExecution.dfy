// Executing one pass on the station, and what is left behind whatever fails.
module PassExecution {
  import opened Basics
  import opened Rotator
  import opened StationSafety

  datatype TrackPoint = TrackPoint(at: Time, azimuth: real, elevation: real)

  datatype Plan = Plan(
    version: int, frequency: int, sampleRate: int,
    recordingStart: Time, recordingEnd: Time, track: seq<TrackPoint>)

  const SUPPORTED_PLAN_VERSION := 1

  /** What the handler demands of a plan before it touches anything. */
  predicate Executable(plan: Plan, now: Time) {
    && 1 <= plan.version <= SUPPORTED_PLAN_VERSION
    && now < plan.recordingEnd
    && plan.track != []
    && plan.frequency > 0
    && plan.sampleRate > 0
  }

  const BYTES_PER_SAMPLE := 4
  const RESERVE_BYTES := 0x4000_0000

  /** The disk cannot hold the worst case of the recording window. */
  predicate SpaceShortfall(plan: Plan, free: Option<int>) {
    && plan.recordingStart < plan.recordingEnd
    && free.Some?
    && free.value < (plan.recordingEnd - plan.recordingStart) * plan.sampleRate * BYTES_PER_SAMPLE
                    / 1_000_000 + RESERVE_BYTES
  }

  /** What the probe and the disk say: whether probing raises, whether SatDump is there, and the free space if it can be read. */
  datatype Probe = Probe(raises: bool, satdumpAvailable: bool, free: Option<int>)

  datatype Report = Report(captureStarted: bool, captureResult: Option<ProcessResult>, pointingFailures: nat)

  predicate Succeeded(report: Report) {
    report.captureStarted
    && report.captureResult.Some?
    && (report.captureResult.value.succeeded || report.captureResult.value.terminated)
  }

  /** How executing a pass ends: refused before anything is touched, run with a
      verdict, or left by an exception that nobody expected. */
  datatype Outcome = Refused | Ran(succeeded: bool) | Escaped

  /** The rotator after one tracking point. */
  datatype Visit = Visit(last: Option<Position>, failed: bool)

  predicate OnTarget(visit: Visit, point: TrackPoint) {
    visit.failed
    || (visit.last.Some?
        && (Near(visit.last.value, point.azimuth, point.elevation)
            <==> Reachable(point.azimuth, point.elevation)))
  }

  /** Every capture started since `from` waits for the recording to start. */
  ghost predicate StartsInTime(log: seq<CaptureEvent>, from: nat, plan: Plan) {
    forall i :: from <= i < |log| && log[i].Started? ==> log[i].at >= plan.recordingStart
  }

  /** Every capture with identifier `id` that was stopped since `from` was
      stopped once the recording was over, or for shutdown. */
  ghost predicate StopsInTime(log: seq<CaptureEvent>, from: nat, id: nat, plan: Plan, shutdown: bool) {
    forall i :: from <= i < |log| && log[i].Stopped? && log[i].id >= id ==>
      log[i].at >= plan.recordingEnd || shutdown
  }

  class StationPassHandler {
    const station: Station

    constructor (station: Station)
      ensures this.station == station
    {
      this.station := station;
    }

    /** Commands the rotator, skipping movements below one degree. Whenever no
        failure is reported, the last commanded position is within one degree
        of the target exactly when the hardware can get there. */
    method Point(azimuth: real, elevation: real, report: Report, force: bool)
      returns (after: Report, raised: bool)
      requires station.Valid()
      modifies station.rotator
      ensures station.Valid() && station.Advanced()
      ensures after == report.(pointingFailures := after.pointingFailures)
      ensures report.pointingFailures <= after.pointingFailures
      ensures raised || OnTarget(Visit(station.rotator.lastCommanded,
                                       after.pointingFailures != report.pointingFailures),
                                 TrackPoint(0, azimuth, elevation))
    {
      after, raised := report, false;
      var rotator := station.rotator;
      if !force && rotator.lastCommanded.Some?
         && Near(rotator.lastCommanded.value, azimuth, elevation) {
        NearOnlyReachable(rotator.lastCommanded.value, azimuth, elevation);
        return;
      }
      raised := *;
      if raised { return; }
      var ok := rotator.TrackTo(azimuth, elevation);
      if !ok { after := after.(pointingFailures := after.pointingFailures + 1); }
    }

    /** Drives the antenna along the track until its end or shutdown. */
    method Track(plan: Plan, report: Report)
      returns (after: Report, raised: bool, ghost visits: seq<Visit>)
      requires station.Valid()
      modifies station`log, station`now, station`shutdown, station.rotator
      ensures station.Valid() && station.Advanced() && station.CapturesUntouched()
      ensures after == report.(pointingFailures := after.pointingFailures)
      ensures |visits| <= |plan.track|
      ensures forall i :: 0 <= i < |visits| ==> OnTarget(visits[i], plan.track[i])
      ensures |visits| < |plan.track| ==> raised || station.shutdown
    {
      after, raised, visits := report, false, [];
      for k := 0 to |plan.track|
        invariant station.Valid() && station.Advanced() && station.CapturesUntouched()
        invariant after == report.(pointingFailures := after.pointingFailures)
        invariant |visits| == k
        invariant forall i :: 0 <= i < k ==> OnTarget(visits[i], plan.track[i])
      {
        if station.shutdown { return; }
        station.WaitUntil(plan.track[k].at);
        if station.shutdown { return; }
        var failures := after.pointingFailures;
        after, raised := Point(plan.track[k].azimuth, plan.track[k].elevation, after, false);
        if raised { return; }
        visits := visits + [Visit(station.rotator.lastCommanded, after.pointingFailures != failures)];
      }
    }

    /** Stops any capture and parks, whatever went wrong: the last thing asked
        of the rotator is to park, and a capture survives only a raising stop. */
    method SafeFinish(report: Report) returns (after: Report, raised: bool)
      requires station.Valid()
      modifies station`capture, station`log, station`now, station`shutdown, station.rotator
      ensures station.Valid() && station.Advanced()
      ensures Alive(station.log) == {} || EndsWithRaisedStop(station.log)
      ensures ParkedLast(old(station.rotator.attempts), station.rotator)
      ensures old(station.capture) == None ==> station.log == old(station.log)
      ensures old(station.capture).Some? ==>
                OnlyStops(old(station.log), station.log, old(station.capture).value, old(station.now))
    {
      after := report;
      var stopped := station.StopCapture();
      if stopped.Value? && stopped.value.Some? && after.captureResult == None {
        after := after.(captureResult := stopped.value);
      }
      var _ := station.rotator.Park();
      raised := *;
    }

    /** Starts the capture of this pass; a refusing station is only reported. */
    method StartCapture(plan: Plan, report: Report) returns (after: Report, raised: bool)
      requires station.Valid() && !report.captureStarted
      modifies station`capture, station`log, station`nextId, station`now, station`shutdown
      ensures station.Valid() && station.Advanced()
      ensures after == report.(captureStarted := after.captureStarted)
      ensures station.nextId == old(station.nextId) + (if after.captureStarted then 1 else 0)
      ensures after.captureStarted ==>
                && station.capture == Some(old(station.nextId))
                && LastStart(station.log, old(station.nextId), old(station.now))
      ensures forall i :: |old(station.log)| <= i < |station.log| ==>
                && (station.log[i].Started? ==> station.log[i].at >= old(station.now))
                && (station.log[i].Stopped? ==> station.log[i].id < old(station.nextId))
    {
      after, raised := report, false;
      raised := *;
      if raised { return; }
      var started := station.StartCapture();
      match started
      case Value(_) => after := after.(captureStarted := true);
      case HardwareFault =>
      case Raised => raised := true;
    }

    /** Probes the station, checks the disk and waits for the recording start,
        with the antenna on the first point. The value says whether to go on. */
    method Prepare(plan: Plan, probe: Probe, report: Report) returns (after: Report, ready: Ending<bool>)
      requires station.Valid() && plan.track != []
      modifies station`log, station`now, station`shutdown, station.rotator
      ensures station.Valid() && station.Advanced() && station.CapturesUntouched()
      ensures after == report.(pointingFailures := after.pointingFailures)
      ensures ready.Value? || ready.Raised?
      ensures ready == Value(true) ==> station.now >= plan.recordingStart
      ensures ready == Value(true) ==> !probe.raises && probe.satdumpAvailable && !SpaceShortfall(plan, probe.free)
    {
      after := report;
      station.Environment();
      if probe.raises { return after, Raised; }
      if !probe.satdumpAvailable || SpaceShortfall(plan, probe.free) { return after, Value(false); }
      var raised;
      after, raised := Point(plan.track[0].azimuth, plan.track[0].elevation, after, true);
      if raised { return after, Raised; }
      station.WaitUntil(plan.recordingStart);
      return after, Value(!station.shutdown);
    }

    /** Follows the track to the end of the recording and stops the capture. */
    method Record(plan: Plan, report: Report) returns (after: Report, verdict: Ending<bool>)
      requires station.Valid() && report.captureResult == None
      requires report.captureStarted ==>
                 && station.capture.Some?
                 && Fate(station.log, station.capture.value).value.Started?
      modifies station`capture, station`log, station`now, station`shutdown, station.rotator
      ensures station.Valid() && station.Advanced()
      ensures forall i :: |old(station.log)| <= i < |station.log| ==> !station.log[i].Started?
      ensures verdict.Value? || verdict.Raised?
      ensures verdict.Value? ==>
                && station.capture == None
                && StopsInTime(station.log, |old(station.log)|, 0, plan, station.shutdown)
                && (verdict.value <==> report.captureStarted
                                       && EndedWell(station.log, old(station.capture).value))
    {
      ghost var visits;
      var raised;
      after, raised, visits := Track(plan, report);
      if raised { return after, Raised; }
      station.WaitUntil(plan.recordingEnd);
      if report.captureStarted {
        FateAfterExits(old(station.log), station.log, station.capture.value);
      }
      var stopped := station.StopCapture();
      if !stopped.Value? { return after, Raised; }
      if stopped.value.Some? { after := after.(captureResult := stopped.value); }
      var sizingRaises: bool := *;
      if sizingRaises { return after, Raised; }
      return after, Value(Succeeded(after));
    }

    /** The pass itself, up to its verdict. */
    method Run(plan: Plan, probe: Probe, report: Report) returns (after: Report, verdict: Ending<bool>)
      requires station.Valid() && plan.track != [] && report == Report(false, None, 0)
      modifies station, station.rotator
      ensures station.Valid() && station.Advanced()
      ensures station.nextId <= old(station.nextId) + 1
      ensures station.nextId > old(station.nextId) ==> probe.satdumpAvailable && !SpaceShortfall(plan, probe.free)
      ensures StartsInTime(station.log, |old(station.log)|, plan)
      ensures verdict.Value? || verdict.Raised?
      ensures verdict.Value? ==>
                && (station.capture == None || station.nextId == old(station.nextId))
                && StopsInTime(station.log, |old(station.log)|, old(station.nextId), plan, station.shutdown)
                && (verdict.value <==> station.nextId > old(station.nextId)
                                       && EndedWell(station.log, old(station.nextId)))
    {
      var ready, raised;
      after, ready := Prepare(plan, probe, report);
      if ready != Value(true) { return after, ready; }
      after, raised := StartCapture(plan, after);
      if raised { return after, Raised; }
      after, verdict := Record(plan, after);
    }

    /** One pass. A refused plan touches nothing; otherwise the station is left
        safe and the verdict says whether this pass's own capture ended well. */
    method Execute(plan: Option<Plan>, probe: Probe) returns (outcome: Outcome)
      requires station.Valid()
      modifies station, station.rotator
      ensures station.Valid() && station.Advanced() && OneAtATime(station.log)
      ensures outcome.Refused? <==>
                || plan == None
                || plan.value.version != 1 || plan.value.recordingEnd <= old(station.now) || plan.value.track == []
                || plan.value.frequency <= 0 || plan.value.sampleRate <= 0
      ensures !outcome.Refused? && station.nextId > old(station.nextId) ==>
                && probe.satdumpAvailable
                && (plan.value.recordingStart < plan.value.recordingEnd && probe.free.Some? ==>
                      probe.free.value >= 0x4000_0000 + (plan.value.recordingEnd - plan.value.recordingStart)
                                                        * plan.value.sampleRate * 4 / 1_000_000)
      ensures outcome.Refused? ==>
                && station.log == old(station.log)
                && station.capture == old(station.capture)
                && station.rotator.attempts == old(station.rotator.attempts)
      ensures !outcome.Refused? ==>
                && (Alive(station.log) == {} || EndsWithRaisedStop(station.log))
                && ParkedLast(old(station.rotator.attempts), station.rotator)
                && StartsInTime(station.log, |old(station.log)|, plan.value)
                && station.nextId <= old(station.nextId) + 1
      ensures outcome.Ran? ==>
                && StopsInTime(station.log, |old(station.log)|, old(station.nextId), plan.value, station.shutdown)
                && (outcome.succeeded <==> station.nextId > old(station.nextId)
                                           && EndedWell(station.log, old(station.nextId)))
    {
      if plan == None || !Executable(plan.value, station.now) { return Refused; }
      var report, verdict := Run(plan.value, probe, Report(false, None, 0));
      var raised;
      report, raised := SafeFinish(report);
      outcome := if verdict.Value? && !raised then Ran(verdict.value) else Escaped;
    }
  }

  /** The log ends with the start of process `id`, not before `from`. */
  ghost predicate LastStart(log: seq<CaptureEvent>, id: nat, from: Time) {
    log != [] && log[|log| - 1].Started? && log[|log| - 1].id == id && log[|log| - 1].at >= from
  }

  /** At least one attempt was made since `before`, and the last one was to park. */
  ghost predicate ParkedLast(before: seq<Attempt>, rotator: G550)
    reads rotator
  {
    before < rotator.attempts
    && rotator.attempts[|rotator.attempts| - 1].target == rotator.parkAt
  }
}
