// The station's single capture slot, and the processes that went through it.
module StationSafety {
  import opened Basics
  import opened Rotator

  // ------------------------------------------------------------- capture log

  /** What happens to capture processes, in the order it happens. */
  datatype CaptureEvent =
    | Started(id: nat, at: Time)
    | Exited(id: nat, code: int)
    | Stopped(id: nat, killed: bool, at: Time)
    | StopRaised(id: nat)

  function AliveAfter(alive: set<nat>, e: CaptureEvent): set<nat> {
    if e.Started? then alive + {e.id} else if e.StopRaised? then alive else alive - {e.id}
  }

  function Alive(log: seq<CaptureEvent>): set<nat> {
    if log == [] then {} else AliveAfter(Alive(log[..|log| - 1]), log[|log| - 1])
  }

  predicate AtMostOne(alive: set<nat>) {
    forall a, b :: a in alive && b in alive ==> a == b
  }

  /** At every moment of the log at most one capture process is alive. */
  predicate OneAtATime(log: seq<CaptureEvent>) {
    AtMostOne(Alive(log)) && (log != [] ==> OneAtATime(log[..|log| - 1]))
  }

  lemma {:induction false} OneAtEveryMoment(log: seq<CaptureEvent>, k: nat)
    requires OneAtATime(log) && k <= |log|
    ensures AtMostOne(Alive(log[..k]))
  {
    if k < |log| {
      OneAtEveryMoment(log[..|log| - 1], k);
      assert log[..|log| - 1][..k] == log[..k];
    } else {
      assert log[..k] == log;
    }
  }

  lemma AliveAppend(log: seq<CaptureEvent>, e: CaptureEvent)
    ensures Alive(log + [e]) == AliveAfter(Alive(log), e)
  {
    assert (log + [e])[..|log|] == log;
  }

  lemma OneAtATimeAppend(log: seq<CaptureEvent>, e: CaptureEvent)
    requires OneAtATime(log)
    requires e.Started? ==> Alive(log) == {}
    ensures OneAtATime(log + [e])
  {
    AliveAppend(log, e);
    assert (log + [e])[..|log|] == log;
  }

  /** The last thing that happened to a process itself. */
  function Fate(log: seq<CaptureEvent>, id: nat): (f: Option<CaptureEvent>)
    ensures f.Some? ==> f.value.id == id && !f.value.StopRaised?
  {
    if log == [] then None
    else
      var last := log[|log| - 1];
      if last.id == id && !last.StopRaised? then Some(last) else Fate(log[..|log| - 1], id)
  }

  /** The process ended well: by itself with code zero, or by being stopped. */
  predicate EndedWell(log: seq<CaptureEvent>, id: nat) {
    match Fate(log, id)
    case Some(Exited(_, code)) => code == 0
    case Some(Stopped(_, _, _)) => true
    case _ => false
  }

  lemma FateAppend(log: seq<CaptureEvent>, e: CaptureEvent, id: nat)
    ensures Fate(log + [e], id) == if e.id == id && !e.StopRaised? then Some(e) else Fate(log, id)
  {
    assert (log + [e])[..|log|] == log;
  }

  lemma {:induction false} AliveExactlyWhileStarted(log: seq<CaptureEvent>, id: nat)
    ensures id in Alive(log) <==> Fate(log, id).Some? && Fate(log, id).value.Started?
  {
    if log != [] {
      AliveExactlyWhileStarted(log[..|log| - 1], id);
    }
  }

  /** Between two moments processes only exited by themselves. */
  ghost predicate OnlyExits(before: seq<CaptureEvent>, after: seq<CaptureEvent>) {
    before <= after && forall i :: |before| <= i < |after| ==> after[i].Exited?
  }

  lemma {:induction false} FateAfterExits(before: seq<CaptureEvent>, after: seq<CaptureEvent>, id: nat)
    requires OnlyExits(before, after) && Fate(before, id).Some? && !Fate(before, id).value.Stopped?
    ensures Fate(after, id).Some? && !Fate(after, id).value.Stopped?
    decreases |after|
  {
    if |after| > |before| {
      FateAfterExits(before, after[..|after| - 1], id);
    } else {
      assert before == after;
    }
  }

  /** Between two moments nothing was started, and nothing was stopped but the
      process `id`, not before `from`. */
  ghost predicate OnlyStops(before: seq<CaptureEvent>, after: seq<CaptureEvent>, id: nat, from: Time) {
    before <= after
    && forall i :: |before| <= i < |after| ==>
         && !after[i].Started?
         && (after[i].Stopped? ==> after[i].id == id && after[i].at >= from)
  }

  lemma StopsAfterExits(before: seq<CaptureEvent>, mid: seq<CaptureEvent>, after: seq<CaptureEvent>, id: nat, from: Time, later: Time)
    requires OnlyExits(before, mid) && OnlyStops(mid, after, id, later) && from <= later
    ensures OnlyStops(before, after, id, from)
  {
  }

  /** The log ends with a stop that raised, but for processes exiting by themselves. */
  ghost predicate EndsWithRaisedStop(log: seq<CaptureEvent>) {
    exists i :: 0 <= i < |log| && log[i].StopRaised? && forall j :: i < j < |log| ==> log[j].Exited?
  }

  // ----------------------------------------------------------------- station

  datatype ProcessResult = ProcessResult(succeeded: bool, terminated: bool)

  /** How a call ends: with a value, with a hardware error, or with any other
      exception. */
  datatype Ending<+T> = Value(value: T) | HardwareFault | Raised

  class Station {
    const rotator: G550
    var capture: Option<nat>
    var log: seq<CaptureEvent>
    var nextId: nat
    var now: Time
    var shutdown: bool

    /** The slot accounts for whatever is alive, and never were two alive. */
    ghost predicate Valid()
      reads this, rotator
    {
      && rotator.Valid()
      && OneAtATime(log)
      && (forall id :: id in Alive(log) ==> capture == Some(id))
      && (capture.Some? ==> capture.value < nextId && Fate(log, capture.value).Some?)
      && (forall i :: 0 <= i < |log| ==> log[i].id < nextId)
    }

    constructor (rotator: G550, now: Time)
      requires rotator.Valid()
      ensures Valid() && this.rotator == rotator && log == [] && !shutdown
    {
      this.rotator := rotator;
      this.now := now;
      capture, log, nextId, shutdown := None, [], 0, false;
    }

    /** Nothing in the past is revised. */
    twostate predicate Advanced()
      reads this, rotator
    {
      && old(log) <= log
      && old(nextId) <= nextId
      && old(now) <= now
      && (old(shutdown) ==> shutdown)
      && old(rotator.attempts) <= rotator.attempts
    }

    /** The captures were left alone: the slot is as it was and processes at
        most exited by themselves. */
    twostate predicate CapturesUntouched()
      reads this
    {
      OnlyExits(old(log), log) && capture == old(capture) && nextId == old(nextId)
    }

    method Append(e: CaptureEvent)
      requires Valid()
      requires !e.Started? && e.id < nextId
      modifies this`log
      ensures Valid() && log == old(log) + [e]
    {
      AliveAppend(log, e);
      OneAtATimeAppend(log, e);
      if capture.Some? { FateAppend(log, e, capture.value); }
      log := log + [e];
    }

    /** Time passes; a running capture may exit and shutdown may be requested. */
    method Environment()
      requires Valid()
      modifies this`log, this`now, this`shutdown
      ensures Valid() && Advanced() && CapturesUntouched()
    {
      var later: Time := *;
      var request: bool := *;
      var exits: bool := *;
      if later > now { now := later; }
      shutdown := shutdown || request;
      if exits && capture.Some? && capture.value in Alive(log) {
        var code: int := *;
        Append(Exited(capture.value, code));
      }
    }

    /** Logs that stopping raised. */
    method RaiseStop(id: nat)
      requires Valid() && id < nextId
      modifies this`log
      ensures Valid() && log == old(log) + [StopRaised(id)] && EndsWithRaisedStop(log)
    {
      Append(StopRaised(id));
      assert log[|log| - 1].StopRaised?;
    }

    /** Terminates a running process, killing it when the grace period passes. */
    method Terminate(id: nat) returns (killed: bool)
      requires Valid() && capture == Some(id)
      modifies this`log
      ensures Valid() && log == old(log) + [Stopped(id, killed, now)]
      ensures Alive(log) == {} && EndedWell(log, id)
    {
      killed := *;
      FateAppend(log, Stopped(id, killed, now), id);
      AliveAppend(log, Stopped(id, killed, now));
      Append(Stopped(id, killed, now));
    }

    /** Terminates a running process; collecting its output afterwards may raise. */
    method StopRunning(id: nat) returns (r: Ending<ProcessResult>)
      requires Valid() && capture == Some(id)
      modifies this`log
      ensures Valid() && OnlyStops(old(log), log, id, now)
      ensures r.Value? || r.Raised?
      ensures r.Raised? ==> EndsWithRaisedStop(log)
      ensures r.Value? ==> Alive(log) == {} && EndedWell(log, id) && r.value.terminated
    {
      var killed := Terminate(id);
      var raises: bool := *;
      if raises {
        RaiseStop(id);
        return Raised;
      }
      return Value(ProcessResult(!killed, true));
    }

    /** Collects a process that is no longer running. */
    method Collect(id: nat) returns (result: ProcessResult)
      requires Valid() && capture == Some(id) && id !in Alive(log)
      ensures Alive(log) == {} && !result.terminated
      ensures !Fate(log, id).value.Stopped? ==> (EndedWell(log, id) <==> result.succeeded)
    {
      AliveExactlyWhileStarted(log, id);
      var code: int := *;
      if Fate(log, id).value.Exited? { code := Fate(log, id).value.code; }
      result := ProcessResult(code == 0, false);
    }

    /** Stops a SatDump process: a running one is terminated, a finished one is
        only collected. */
    method StopProcess(id: nat) returns (r: Ending<ProcessResult>)
      requires Valid() && capture == Some(id)
      modifies this`log, this`now, this`shutdown
      ensures Valid() && Advanced()
      ensures r.Value? || r.Raised?
      ensures r.Raised? ==> EndsWithRaisedStop(log)
      ensures r.Value? ==> Alive(log) == {}
      ensures r.Value? && !Fate(old(log), id).value.Stopped? ==>
                (EndedWell(log, id) <==> r.value.succeeded || r.value.terminated)
      ensures OnlyStops(old(log), log, id, old(now))
    {
      Environment();
      ghost var reached := log;
      var raises: bool := *;
      if raises {
        RaiseStop(id);
        r := Raised;
      } else if id in Alive(log) {
        r := StopRunning(id);
      } else {
        if !Fate(old(log), id).value.Stopped? { FateAfterExits(old(log), log, id); }
        var result := Collect(id);
        r := Value(result);
      }
      StopsAfterExits(old(log), reached, log, id, old(now), now);
    }

    /** Collects a capture that has exited and empties the slot, unless collecting raises. */
    method Reap() returns (reaped: bool)
      requires Valid() && capture.Some?
      modifies this`capture, this`log, this`now, this`shutdown
      ensures Valid() && Advanced() && nextId == old(nextId)
      ensures reaped ==> capture == None && Alive(log) == {}
      ensures OnlyStops(old(log), log, old(capture).value, old(now))
    {
      var stopped := StopProcess(capture.value);
      reaped := stopped.Value?;
      if reaped { capture := None; }
    }

    /** Starts a capture unless one is running; an exited one is collected first. */
    method StartCapture() returns (r: Ending<nat>)
      requires Valid()
      modifies this`capture, this`log, this`nextId, this`now, this`shutdown
      ensures Valid() && Advanced()
      ensures !r.Value? ==>
                && nextId == old(nextId)
                && forall i :: |old(log)| <= i < |log| ==> !log[i].Started?
      ensures r.Value? ==>
                && r.value == old(nextId) == nextId - 1
                && capture == Some(r.value)
                && |log| > |old(log)|
                && log[|log| - 1] == Started(r.value, now)
                && forall i :: |old(log)| <= i < |log| - 1 ==> !log[i].Started?
      ensures forall i :: |old(log)| <= i < |log| && log[i].Stopped? ==> log[i].id < old(nextId)
    {
      Environment();
      if capture.Some? && capture.value in Alive(log) { return HardwareFault; }
      if capture.Some? {
        var reaped := Reap();
        if !reaped { return Raised; }
      }
      var fails: bool := *;
      if fails { return HardwareFault; }
      Launch();
      r := Value(nextId - 1);
    }

    /** A new process, in an empty slot with nothing alive. */
    method Launch()
      requires Valid() && Alive(log) == {} && capture == None
      modifies this`capture, this`log, this`nextId
      ensures Valid() && nextId == old(nextId) + 1 && capture == Some(old(nextId))
      ensures log == old(log) + [Started(old(nextId), now)]
    {
      var e := Started(nextId, now);
      AliveAppend(log, e);
      OneAtATimeAppend(log, e);
      FateAppend(log, e, nextId);
      log := log + [e];
      capture := Some(nextId);
      nextId := nextId + 1;
    }

    /** Stops what the slot holds and empties it; a raising stop leaves the slot. */
    method StopCapture() returns (r: Ending<Option<ProcessResult>>)
      requires Valid()
      modifies this`capture, this`log, this`now, this`shutdown
      ensures Valid() && Advanced()
      ensures r.Value? || r.Raised?
      ensures r.Raised? ==> EndsWithRaisedStop(log) && capture == old(capture)
      ensures r.Value? ==> capture == None && Alive(log) == {}
      ensures old(capture) == None ==> r == Value(None) && log == old(log)
      ensures old(capture).Some? ==>
                && OnlyStops(old(log), log, old(capture).value, old(now))
                && (r.Value? ==> r.value.Some?)
                && (r.Value? && !Fate(old(log), old(capture).value).value.Stopped? ==>
                      (EndedWell(log, old(capture).value)
                       <==> r.value.value.succeeded || r.value.value.terminated))
    {
      if capture == None { return Value(None); }
      var stopped := StopProcess(capture.value);
      if !stopped.Value? { return Raised; }
      capture := None;
      r := Value(Some(stopped.value));
    }

    /** Sleeps until a moment, or until shutdown is requested. */
    method WaitUntil(moment: Time)
      requires Valid()
      modifies this`log, this`now, this`shutdown
      ensures Valid() && Advanced() && CapturesUntouched()
      ensures moment <= now || shutdown
    {
      Environment();
      if now < moment && !shutdown { now := moment; }
    }
  }
}
