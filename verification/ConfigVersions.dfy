/** The versioned scheduling configuration of a station: which version is in force, and which is waiting. */
module ConfigVersions {
  import opened Basics

  /** A saved version; `savedAt` is the service's clock when it was saved. */
  datatype Version = Version(createdAt: Time, savedAt: Time, effectiveFrom: Time, lead: Time)

  ghost predicate Increasing(vs: seq<Version>) {
    forall i, j :: 0 <= i < j < |vs| ==> vs[i].createdAt < vs[j].createdAt
  }

  /** The version in force at a moment: the newest one already effective. */
  function InForce(vs: seq<Version>, at: Time): (i: Option<nat>)
    ensures i.Some? ==> i.value < |vs| && vs[i.value].effectiveFrom <= at
    ensures forall k :: (if i.Some? then i.value < k else 0 <= k) && k < |vs| ==> vs[k].effectiveFrom > at
  {
    if vs == [] then None
    else if vs[|vs| - 1].effectiveFrom <= at then Some(|vs| - 1)
    else InForce(vs[..|vs| - 1], at)
  }

  /** The rule for a new version: relaxing the lead waits for the new lead, anything else applies at once. */
  function EffectiveFromForNewConfig(now: Time, currentLead: Time, newLead: Time): Time {
    if newLead < currentLead then now + newLead else now
  }

  function Saved(vs: seq<Version>, now: Time, createdAt: Time, lead: Time): seq<Version> {
    match InForce(vs, now)
    case Some(i) => vs + [Version(createdAt, now, EffectiveFromForNewConfig(now, vs[i].lead, lead), lead)]
    case None => vs
  }

  /** A relaxed version: saved while a longer lead was in force. */
  ghost predicate Relaxes(vs: seq<Version>, n: nat)
    requires n < |vs|
  {
    var before := InForce(vs[..n], vs[n].savedAt);
    before.Some? && vs[n].lead < vs[before.value].lead
  }

  /** A table built by the service: a first version from setup, then any saves whatever. */
  ghost predicate Built(vs: seq<Version>) {
    forall n :: 1 <= n < |vs| ==>
      && vs[n].lead >= 0
      && vs[..n + 1] == Saved(vs[..n], vs[n].savedAt, vs[n].createdAt, vs[n].lead)
  }

  /** Time and further saves only move the version in force forward ... */
  lemma InForceOnlyAdvances(vs: seq<Version>, more: seq<Version>, at: Time, later: Time)
    requires at <= later
    requires InForce(vs, at).Some?
    ensures InForce(vs + more, later).Some? && InForce(vs + more, later).value >= InForce(vs, at).value
  {
    var i := InForce(vs, at).value;
    assert (vs + more)[i] == vs[i];
  }

  /** ... so a version once superseded in force never returns, whatever is saved later. */
  lemma SupersededNeverReturns(vs: seq<Version>, more: seq<Version>, evenMore: seq<Version>, t1: Time, t2: Time, t3: Time)
    requires t1 <= t2 <= t3
    requires InForce(vs, t1).Some? && InForce(vs + more, t2) != InForce(vs, t1)
    ensures InForce(vs + more + evenMore, t3).Some? && InForce(vs + more + evenMore, t3) != InForce(vs, t1)
  {
    InForceOnlyAdvances(vs, more, t1, t2);
    InForceOnlyAdvances(vs + more, evenMore, t2, t3);
  }

  /** Saving lowers the lead in force at that instant exactly when the new lead is zero and the current one is not. */
  lemma LoweredAtOnceExactlyByZero(vs: seq<Version>, now: Time, createdAt: Time, lead: Time)
    requires lead >= 0
    requires InForce(vs, now).Some?
    ensures var after := Saved(vs, now, createdAt, lead);
            && InForce(after, now).Some?
            && (after[InForce(after, now).value].lead < vs[InForce(vs, now).value].lead
                <==> lead == 0 && vs[InForce(vs, now).value].lead > 0)
            && (after[InForce(after, now).value].lead > vs[InForce(vs, now).value].lead
                <==> lead > vs[InForce(vs, now).value].lead)
            && (InForce(after, now) == Some(|vs|) <==> lead >= vs[InForce(vs, now).value].lead || lead == 0)
            && InForce(after, now + lead) == Some(|vs|)
  {
    var after := Saved(vs, now, createdAt, lead);
    assert after[..|after| - 1] == vs;
  }

  /** A booking accepted under a relaxed lead starts at least twice that lead after the relaxation was saved. */
  lemma BookingAfterRelaxing(vs: seq<Version>, n: nat, bookedAt: Time, aos: Time)
    requires 1 <= n < |vs| && aos >= bookedAt + vs[n].lead
    ensures Built(vs) && Relaxes(vs, n) && InForce(vs, bookedAt) == Some(n) ==> aos >= vs[n].savedAt + 2 * vs[n].lead
  {
    if Built(vs) && Relaxes(vs, n) && InForce(vs, bookedAt) == Some(n) {
      var grown := Saved(vs[..n], vs[n].savedAt, vs[n].createdAt, vs[n].lead);
      assert vs[..n + 1] == grown;
      assert grown[n] == vs[n];
    }
  }

  class ConfigTable {
    var versions: seq<Version>

    constructor (first: Version)
      ensures versions == [first]
    {
      versions := [first];
    }

    /** ORDER BY created_at DESC LIMIT 1 over the versions already effective. */
    method LatestEffective(at: Time) returns (i: Option<nat>)
      requires Increasing(versions)
      ensures i == InForce(versions, at)
    {
      i := Newest(at, false, None);
    }

    /** The row of greatest creation time among those effective by `at`, or not yet, and created after `floor`. */
    method Newest(at: Time, waiting: bool, floor: Option<Time>) returns (i: Option<nat>)
      ensures i.Some? ==> i.value < |versions| && Qualifies(versions[i.value], at, waiting, floor)
      ensures forall k :: 0 <= k < |versions| && Qualifies(versions[k], at, waiting, floor) ==>
                i.Some? && versions[k].createdAt <= versions[i.value].createdAt
    {
      i := None;
      for n := 0 to |versions|
        invariant i.Some? ==> i.value < n && Qualifies(versions[i.value], at, waiting, floor)
        invariant forall k :: 0 <= k < n && Qualifies(versions[k], at, waiting, floor) ==>
                    i.Some? && versions[k].createdAt <= versions[i.value].createdAt
      {
        if Qualifies(versions[n], at, waiting, floor) && (i.None? || versions[n].createdAt > versions[i.value].createdAt) {
          i := Some(n);
        }
      }
    }

    static predicate Qualifies(v: Version, at: Time, waiting: bool, floor: Option<Time>) {
      (if waiting then v.effectiveFrom > at else v.effectiveFrom <= at) && (floor.Some? ==> v.createdAt > floor.value)
    }

    /** The pending query finds the newest version while it waits, and nothing otherwise. */
    method PendingConfig(at: Time) returns (i: Option<nat>)
      requires Increasing(versions)
      ensures i == if versions != [] && versions[|versions| - 1].effectiveFrom > at then Some(|versions| - 1) else None
    {
      var effective := Newest(at, false, None);
      var floor := if effective.Some? then Some(versions[effective.value].createdAt) else None;
      i := Newest(at, true, floor);
      if versions != [] && versions[|versions| - 1].effectiveFrom > at {
        assert Qualifies(versions[|versions| - 1], at, true, floor);
      }
    }

    /** Save a new version; without any version in force there is nothing to relax or tighten and the save fails. */
    method UpdateSchedulingConfig(now: Time, createdAt: Time, lead: Time) returns (saved: bool)
      requires Increasing(versions)
      modifies this
      ensures versions == Saved(old(versions), now, createdAt, lead)
      ensures saved == (versions != old(versions))
    {
      var current := LatestEffective(now);
      saved := current.Some?;
      if saved {
        versions := versions + [Version(createdAt, now, EffectiveFromForNewConfig(now, versions[current.value].lead, lead), lead)];
      }
    }
  }
}
