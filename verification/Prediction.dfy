// Pass prediction: the scan over rise, culmination and set events, and the
// sampling of a pass's pointing timeline.
module Prediction {
  import opened Basics

  const DEFAULT_MAX_PASSES := 100
  const MAX_TRACK_POINTS := 5000

  // -------------------------------------------------------------- the timeline

  /** How many whole steps fit into the duration. */
  function StepCount(duration: real, step: nat): int
    requires step >= 1
  {
    (duration / step as real).Floor
  }

  function Offset(i: int, step: nat): real { i as real * step as real }

  lemma OffsetNext(i: int, step: nat)
    ensures Offset(i + 1, step) == Offset(i, step) + step as real
  {
  }

  lemma OffsetMonotone(i: int, j: int, step: nat)
    requires i <= j
    ensures Offset(i, step) <= Offset(j, step)
  {
    assert Offset(j, step) - Offset(i, step) == (j as real - i as real) * step as real;
  }

  lemma StepCountBounds(duration: real, step: nat)
    requires step >= 1
    ensures var n := StepCount(duration, step);
            Offset(n, step) <= duration < Offset(n + 1, step)
  {
    var n, s := StepCount(duration, step), step as real;
    assert duration / s < (n + 1) as real;
    DividedBelow(n as real, duration, s);
    DividedBelow((n + 1) as real, duration, s);
  }

  lemma DividedBelow(a: real, d: real, s: real)
    requires s > 0.0
    ensures d / s < a ==> d < a * s
    ensures d / s >= a ==> d >= a * s
  {
    var q := d / s;
    assert q * s == d;
    if q < a { ScaleStrict(q, a, s); } else if q > a { ScaleStrict(a, q, s); }
  }

  lemma ScaleStrict(a: real, b: real, s: real)
    requires s > 0.0 && a < b
    ensures a * s < b * s
  {
  }

  /** Sample offsets from AOS, in seconds; None when there would be too many. */
  function TrackOffsets(duration: real, step: nat): Option<seq<real>>
    requires step >= 1
  {
    var count := StepCount(duration, step);
    if count > MAX_TRACK_POINTS then None
    else
      var offsets := seq(if count < 0 then 0 else count + 1, i => Offset(i, step));
      Some(if offsets == [] || offsets[|offsets| - 1] < duration then offsets + [duration] else offsets)
  }

  /** The timeline starts at AOS, moves forward by at most one step at a time
      and ends exactly at LOS. */
  ghost predicate Samples(offsets: seq<real>, duration: real, step: nat) {
    && 1 <= |offsets| <= MAX_TRACK_POINTS + 2
    && offsets[0] == 0.0
    && offsets[|offsets| - 1] == duration
    && (forall i :: 0 <= i < |offsets| - 1 ==> offsets[i] == i as real * step as real)
    && forall i, j :: 0 <= i < j < |offsets| && j == i + 1 ==>
         offsets[i] < offsets[j] <= offsets[i] + step as real
  }

  lemma TrackOffsetsSample(duration: real, step: nat)
    requires step >= 1 && duration >= 0.0
    ensures TrackOffsets(duration, step).Some? <==> duration < Offset(MAX_TRACK_POINTS + 1, step)
    ensures TrackOffsets(duration, step).Some? ==> Samples(TrackOffsets(duration, step).value, duration, step)
  {
    var count := StepCount(duration, step);
    StepCountBounds(duration, step);
    if count < 0 { OffsetMonotone(count + 1, 0, step); }
    if count <= MAX_TRACK_POINTS {
      OffsetMonotone(count + 1, MAX_TRACK_POINTS + 1, step);
      var offsets := TrackOffsets(duration, step).value;
      forall i, j | 0 <= i < j < |offsets| && j == i + 1
        ensures offsets[i] < offsets[j] <= offsets[i] + step as real
      {
        OffsetNext(i, step);
      }
    } else {
      OffsetMonotone(MAX_TRACK_POINTS + 1, count, step);
    }
  }

  // -------------------------------------------------------------- the event scan

  datatype Event = Rise | Culminate | Set

  datatype PassTimes = PassTimes(aos: real, tca: real, los: real, track: seq<real>)

  predicate TripleAt(events: seq<Event>, i: nat) {
    i + 2 < |events| && events[i] == Rise && events[i + 1] == Culminate && events[i + 2] == Set
  }

  /** The starts below `n` of the consecutive rise, culminate, set triples. */
  function Triples(events: seq<Event>, n: nat): (starts: seq<nat>)
    ensures forall k :: 0 <= k < |starts| ==> starts[k] + 2 < |events|
  {
    if n == 0 then []
    else if TripleAt(events, n - 1) then Triples(events, n - 1) + [n - 1]
    else Triples(events, n - 1)
  }

  /** No two triples share an event. */
  ghost predicate Apart(starts: seq<nat>) {
    forall a, b :: 0 <= a < b < |starts| ==> starts[a] + 3 <= starts[b]
  }

  /** Exactly the triples are listed, in order. */
  lemma {:induction false} TriplesExact(events: seq<Event>, n: nat)
    ensures forall i: nat :: i in Triples(events, n) <==> i < n && TripleAt(events, i)
    ensures Apart(Triples(events, n))
  {
    if n > 0 {
      TriplesExact(events, n - 1);
      if TripleAt(events, n - 1) {
        var before := Triples(events, n - 1);
        forall k | 0 <= k < |before| ensures before[k] + 3 <= n - 1 {
          assert before[k] in before;
        }
        ApartAppend(before, n - 1);
      }
    }
  }

  lemma ApartAppend(starts: seq<nat>, n: nat)
    requires Apart(starts) && forall k :: 0 <= k < |starts| ==> starts[k] + 3 <= n
    ensures Apart(starts + [n])
  {
  }

  function Limit(maxPasses: int): nat {
    if maxPasses > 0 then maxPasses else DEFAULT_MAX_PASSES
  }

  /** The pass of the triple at `i`; None when its timeline would be too long. */
  function PassAt(times: seq<real>, i: nat, step: nat): Option<PassTimes>
    requires i + 2 < |times|
  {
    if step == 0 then Some(PassTimes(times[i], times[i + 1], times[i + 2], []))
    else
      var track := TrackOffsets(times[i + 2] - times[i], step);
      if track == None then None
      else Some(PassTimes(times[i], times[i + 1], times[i + 2], track.value))
  }

  /** The passes starting at the given events; None when one of them is refused. */
  function PassesAt(times: seq<real>, starts: seq<nat>, step: nat): Option<seq<PassTimes>>
    requires forall k :: 0 <= k < |starts| ==> starts[k] + 2 < |times|
  {
    if starts == [] then Some([])
    else
      var front := PassesAt(times, starts[..|starts| - 1], step);
      var last := PassAt(times, starts[|starts| - 1], step);
      if front == None || last == None then None else Some(front.value + [last.value])
  }

  /** The first triples, up to the limit. */
  function Selected(events: seq<Event>, limit: nat): (starts: seq<nat>)
    ensures forall k :: 0 <= k < |starts| ==> starts[k] + 2 < |events|
  {
    var all := Triples(events, |events|);
    if |all| <= limit then all else all[..limit]
  }

  lemma {:induction false} TriplesExtend(events: seq<Event>, n: nat, m: nat)
    requires n <= m
    ensures Triples(events, n) <= Triples(events, m)
    decreases m - n
  {
    if n < m { TriplesExtend(events, n, m - 1); }
  }

  /** The last two events start no triple. */
  lemma TriplesEnd(events: seq<Event>, n: nat)
    requires n <= |events| <= n + 2
    ensures Triples(events, n) == Triples(events, |events|)
  {
    if n + 1 == |events| {
    } else if n + 2 == |events| {
      assert Triples(events, n) == Triples(events, n + 1);
    }
  }

  lemma PassesAppend(times: seq<real>, starts: seq<nat>, i: nat, step: nat)
    requires i + 2 < |times| && forall k :: 0 <= k < |starts| ==> starts[k] + 2 < |times|
    ensures PassesAt(times, starts + [i], step)
         == (var front, last := PassesAt(times, starts, step), PassAt(times, i, step);
             if front == None || last == None then None else Some(front.value + [last.value]))
  {
    assert (starts + [i])[..|starts|] == starts;
  }

  lemma {:induction false} PassesRefused(times: seq<real>, starts: seq<nat>, more: seq<nat>, step: nat)
    requires starts <= more
    requires forall k :: 0 <= k < |more| ==> more[k] + 2 < |times|
    requires PassesAt(times, starts, step) == None
    ensures PassesAt(times, more, step) == None
    decreases |more|
  {
    if |more| > |starts| {
      PassesRefused(times, starts, more[..|more| - 1], step);
    } else {
      assert starts == more;
    }
  }

  /** A triple whose timeline is refused fails the whole scan ... */
  lemma ScanRefused(events: seq<Event>, times: seq<real>, step: nat, index: nat, limit: nat)
    requires |times| == |events| && TripleAt(events, index) && PassAt(times, index, step) == None
    requires |Triples(events, index)| < limit
    ensures PassesAt(times, Selected(events, limit), step) == None
  {
    var found := Triples(events, index + 1);
    PassesAppend(times, Triples(events, index), index, step);
    TriplesExtend(events, index + 1, |events|);
    PassesRefused(times, found, Selected(events, limit), step);
  }

  /** ... any other adds one pass ... */
  lemma ScanFound(events: seq<Event>, times: seq<real>, step: nat, index: nat, passes: seq<PassTimes>, pass: PassTimes)
    requires |times| == |events| && TripleAt(events, index) && PassAt(times, index, step) == Some(pass)
    requires PassesAt(times, Triples(events, index), step) == Some(passes)
    ensures PassesAt(times, Triples(events, index + 1), step) == Some(passes + [pass])
    ensures |Triples(events, index + 1)| == |Triples(events, index)| + 1
  {
    PassesAppend(times, Triples(events, index), index, step);
  }

  /** ... and at the limit those found are the ones selected. */
  lemma ScanFull(events: seq<Event>, n: nat, limit: nat)
    requires n <= |events| && |Triples(events, n)| == limit
    ensures Selected(events, limit) == Triples(events, n)
  {
    TriplesExtend(events, n, |events|);
  }

  /** The scan: the selected passes in order, or an error as soon as one is refused. */
  method PredictPasses(events: seq<Event>, times: seq<real>, step: nat, maxPasses: int)
    returns (result: Option<seq<PassTimes>>)
    requires |times| == |events|
    ensures result == PassesAt(times, Selected(events, Limit(maxPasses)), step)
  {
    var limit := Limit(maxPasses);
    var passes: seq<PassTimes> := [];
    var last := if |events| < 2 then 0 else |events| - 2;
    for index := 0 to last
      invariant |passes| == |Triples(events, index)| < limit
      invariant PassesAt(times, Triples(events, index), step) == Some(passes)
    {
      if events[index] != Rise { continue; }
      if events[index + 1] != Culminate || events[index + 2] != Set { continue; }
      var pass := PassAt(times, index, step);
      if pass == None {
        ScanRefused(events, times, step, index, limit);
        return None;
      }
      ScanFound(events, times, step, index, passes, pass.value);
      passes := passes + [pass.value];
      if |passes| >= limit {
        ScanFull(events, index + 1, limit);
        return Some(passes);
      }
    }
    TriplesEnd(events, last);
    result := Some(passes);
  }

  /** The passes of a list of triples, one for each; one that is refused refuses them all. */
  lemma {:induction false} PassesEach(times: seq<real>, starts: seq<nat>, step: nat, k: nat)
    requires k < |starts| && forall k :: 0 <= k < |starts| ==> starts[k] + 2 < |times|
    ensures PassesAt(times, starts, step).Some? ==>
              && |PassesAt(times, starts, step).value| == |starts|
              && PassAt(times, starts[k], step) == Some(PassesAt(times, starts, step).value[k])
    ensures PassAt(times, starts[k], step) == None ==> PassesAt(times, starts, step) == None
    decreases |starts|
  {
    var n := |starts| - 1;
    PassesLength(times, starts, step);
    PassesLength(times, starts[..n], step);
    if k < n {
      PassesEach(times, starts[..n], step, k);
    }
  }

  lemma {:induction false} PassesLength(times: seq<real>, starts: seq<nat>, step: nat)
    requires forall k :: 0 <= k < |starts| ==> starts[k] + 2 < |times|
    ensures PassesAt(times, starts, step).Some? ==> |PassesAt(times, starts, step).value| == |starts|
    decreases |starts|
  {
    if starts != [] { PassesLength(times, starts[..|starts| - 1], step); }
  }

  /** As many passes as there are triples, but no more than asked for, or a hundred when nothing sensible is asked. */
  lemma PassCount(events: seq<Event>, times: seq<real>, step: nat, maxPasses: int)
    requires |times| == |events|
    ensures var passes := PassesAt(times, Selected(events, Limit(maxPasses)), step);
            var found := |Triples(events, |events|)|;
            var limit := if maxPasses > 0 then maxPasses else 100;
            passes.Some? ==> |passes.value| == if found <= limit then found else limit
  {
    PassesLength(times, Selected(events, Limit(maxPasses)), step);
  }

  /** A pass rises, culminates and sets at the three times of its triple and carries the timeline between them; only a
      timeline of too many points is refused. */
  lemma PassReads(times: seq<real>, i: nat, step: nat)
    requires i + 2 < |times|
    ensures PassAt(times, i, step) == None <==> step >= 1 && TrackOffsets(times[i + 2] - times[i], step) == None
    ensures PassAt(times, i, step).Some? ==>
              var pass := PassAt(times, i, step).value;
              && pass.aos == times[i] && pass.tca == times[i + 1] && pass.los == times[i + 2]
              && (step == 0 ==> pass.track == [])
              && (step >= 1 ==> TrackOffsets(pass.los - pass.aos, step) == Some(pass.track))
  {
  }

  /** Passes found over increasing event times rise, culminate and set in this order, and do not overlap. */
  lemma PassesDisjoint(events: seq<Event>, times: seq<real>, step: nat, limit: nat, a: nat, b: nat)
    requires |times| == |events|
    requires forall i, j :: 0 <= i < j < |times| ==> times[i] < times[j]
    requires a < b < |Selected(events, limit)|
    ensures PassesAt(times, Selected(events, limit), step).Some? ==>
              var passes := PassesAt(times, Selected(events, limit), step).value;
              && |passes| == |Selected(events, limit)|
              && passes[a].aos < passes[a].tca < passes[a].los < passes[b].aos
  {
    TriplesExact(events, |events|);
    var s, all := Selected(events, limit), Triples(events, |events|);
    assert s[a] == all[a] && s[b] == all[b];
    PassesEach(times, s, step, a);
    PassesEach(times, s, step, b);
    PassReads(times, s[a], step);
    PassReads(times, s[b], step);
  }
}
