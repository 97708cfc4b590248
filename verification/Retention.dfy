/** Which local recordings are deleted, in what order, and when deletion stops. */
module Retention {
  import opened Basics

  datatype Candidate = Candidate(id: Digest, finishedAt: Time, uploaded: bool)

  /** Twelve hours. */
  const MINIMUM_RETENTION: Time := 12 * 3600 * 1_000_000
  const DISK_PRESSURE_THRESHOLD: real := 0.90

  /** Confirmed and old enough, confirmed but recent, or not confirmed: the order in which data may go. */
  datatype Class = ConfirmedExpired | ConfirmedRecent | Unconfirmed

  function Rank(c: Class): nat {
    match c case ConfirmedExpired => 0 case ConfirmedRecent => 1 case Unconfirmed => 2
  }

  function ClassOf(c: Candidate, now: Time): Class {
    if !c.uploaded then Unconfirmed
    else if now - c.finishedAt >= MINIMUM_RETENTION then ConfirmedExpired
    else ConfirmedRecent
  }

  function Group(s: seq<Candidate>, now: Time, kind: Class): seq<Candidate> {
    if s == [] then []
    else
      var rest, last := Group(s[..|s| - 1], now, kind), s[|s| - 1];
      if ClassOf(last, now) == kind then rest + [last] else rest
  }

  function InsertByAge(s: seq<Candidate>, c: Candidate): seq<Candidate> {
    if s == [] || s[|s| - 1].finishedAt <= c.finishedAt then s + [c]
    else InsertByAge(s[..|s| - 1], c) + [s[|s| - 1]]
  }

  /** A stable sort, oldest first. */
  function ByAge(s: seq<Candidate>): seq<Candidate> {
    if s == [] then [] else InsertByAge(ByAge(s[..|s| - 1]), s[|s| - 1])
  }

  ghost predicate AgeSorted(s: seq<Candidate>) {
    forall i, j :: 0 <= i < j < |s| ==> s[i].finishedAt <= s[j].finishedAt
  }

  lemma {:induction false} InsertPermutes(s: seq<Candidate>, c: Candidate)
    ensures multiset(InsertByAge(s, c)) == multiset(s) + multiset{c}
  {
    if s != [] && s[|s| - 1].finishedAt > c.finishedAt {
      assert s == s[..|s| - 1] + [s[|s| - 1]];
      InsertPermutes(s[..|s| - 1], c);
    }
  }

  lemma {:induction false} InsertSorts(s: seq<Candidate>, c: Candidate, bound: Time)
    requires AgeSorted(s)
    ensures AgeSorted(InsertByAge(s, c))
    ensures (forall x :: x in s ==> x.finishedAt <= bound) && c.finishedAt <= bound ==>
              forall x :: x in InsertByAge(s, c) ==> x.finishedAt <= bound
  {
    if s != [] && s[|s| - 1].finishedAt > c.finishedAt {
      var init, last := s[..|s| - 1], s[|s| - 1];
      assert s == init + [last];
      InsertSorts(init, c, last.finishedAt);
      InsertSorts(init, c, bound);
    }
  }

  lemma {:induction false} ByAgeSorts(s: seq<Candidate>)
    ensures AgeSorted(ByAge(s)) && multiset(ByAge(s)) == multiset(s)
  {
    if s != [] {
      assert s == s[..|s| - 1] + [s[|s| - 1]];
      ByAgeSorts(s[..|s| - 1]);
      InsertPermutes(ByAge(s[..|s| - 1]), s[|s| - 1]);
      InsertSorts(ByAge(s[..|s| - 1]), s[|s| - 1], 0);
    }
  }

  function CleanupOrder(candidates: seq<Candidate>, now: Time, pressure: bool): seq<Candidate> {
    if pressure
    then ByAge(Group(candidates, now, ConfirmedExpired)) + ByAge(Group(candidates, now, ConfirmedRecent))
         + ByAge(Group(candidates, now, Unconfirmed))
    else ByAge(Group(candidates, now, ConfirmedExpired))
  }

  lemma {:induction false} GroupMembers(s: seq<Candidate>, now: Time, kind: Class, c: Candidate)
    ensures multiset(Group(s, now, kind))[c] == if ClassOf(c, now) == kind then multiset(s)[c] else 0
  {
    if s != [] {
      assert s == s[..|s| - 1] + [s[|s| - 1]];
      GroupMembers(s[..|s| - 1], now, kind, c);
    }
  }

  lemma SortedGroup(s: seq<Candidate>, now: Time, kind: Class)
    ensures var g := ByAge(Group(s, now, kind));
            && AgeSorted(g)
            && (forall c :: multiset(g)[c] == if ClassOf(c, now) == kind then multiset(s)[c] else 0)
            && (forall i :: 0 <= i < |g| ==> ClassOf(g[i], now) == kind)
  {
    var g := ByAge(Group(s, now, kind));
    ByAgeSorts(Group(s, now, kind));
    forall c ensures multiset(g)[c] == if ClassOf(c, now) == kind then multiset(s)[c] else 0 {
      GroupMembers(s, now, kind, c);
    }
    forall i | 0 <= i < |g| ensures ClassOf(g[i], now) == kind {
      assert g[i] in multiset(g);
    }
  }

  /** Earlier in the order means a class that goes first, or the same class and at least as old. */
  ghost predicate InOrder(s: seq<Candidate>, now: Time) {
    forall i, j :: 0 <= i < j < |s| ==>
      || Rank(ClassOf(s[i], now)) < Rank(ClassOf(s[j], now))
      || (ClassOf(s[i], now) == ClassOf(s[j], now) && s[i].finishedAt <= s[j].finishedAt)
  }

  /** Main result: under pressure the order is a permutation of everything; otherwise exactly the confirmed and expired. */
  lemma OrderSelects(candidates: seq<Candidate>, now: Time, pressure: bool)
    ensures var order := CleanupOrder(candidates, now, pressure);
            && InOrder(order, now)
            && forall c :: multiset(order)[c] ==
                 if pressure || (c.uploaded && now - c.finishedAt >= 12 * 3600 * 1_000_000) then multiset(candidates)[c] else 0
  {
    var expired := ByAge(Group(candidates, now, ConfirmedExpired));
    SortedGroup(candidates, now, ConfirmedExpired);
    if pressure {
      PressureOrders(candidates, now);
      PressureSelects(candidates, now);
    } else {
      OneClassInOrder(expired, now);
    }
  }

  lemma OneClassInOrder(s: seq<Candidate>, now: Time)
    requires AgeSorted(s) && forall i, j :: 0 <= i < |s| && 0 <= j < |s| ==> ClassOf(s[i], now) == ClassOf(s[j], now)
    ensures InOrder(s, now)
  {
  }

  lemma PressureOrders(candidates: seq<Candidate>, now: Time)
    ensures InOrder(CleanupOrder(candidates, now, true), now)
  {
    var expired := ByAge(Group(candidates, now, ConfirmedExpired));
    var recent := ByAge(Group(candidates, now, ConfirmedRecent));
    var unconfirmed := ByAge(Group(candidates, now, Unconfirmed));
    SortedGroup(candidates, now, ConfirmedExpired);
    SortedGroup(candidates, now, ConfirmedRecent);
    SortedGroup(candidates, now, Unconfirmed);
    OneClassInOrder(expired, now);
    OneClassInOrder(recent, now);
    OneClassInOrder(unconfirmed, now);
    AppendInOrder(expired, recent, now);
    AppendInOrder(expired + recent, unconfirmed, now);
  }

  lemma PressureSelects(candidates: seq<Candidate>, now: Time)
    ensures forall c :: multiset(CleanupOrder(candidates, now, true))[c] == multiset(candidates)[c]
  {
    SortedGroup(candidates, now, ConfirmedExpired);
    SortedGroup(candidates, now, ConfirmedRecent);
    SortedGroup(candidates, now, Unconfirmed);
    Pieces(ByAge(Group(candidates, now, ConfirmedExpired)), ByAge(Group(candidates, now, ConfirmedRecent)),
           ByAge(Group(candidates, now, Unconfirmed)));
  }

  lemma AppendInOrder(a: seq<Candidate>, b: seq<Candidate>, now: Time)
    requires InOrder(a, now) && InOrder(b, now)
    requires forall i, j :: 0 <= i < |a| && 0 <= j < |b| ==> Rank(ClassOf(a[i], now)) < Rank(ClassOf(b[j], now))
    ensures InOrder(a + b, now)
  {
  }

  lemma Pieces(a: seq<Candidate>, b: seq<Candidate>, c: seq<Candidate>)
    ensures multiset(a + b + c) == multiset(a) + multiset(b) + multiset(c)
  {
  }

  method SelectForCleanup(candidates: seq<Candidate>, now: Time, pressure: bool) returns (order: seq<Candidate>)
    ensures order == CleanupOrder(candidates, now, pressure)
  {
    var expired, recent, unconfirmed := [], [], [];
    for i := 0 to |candidates|
      invariant expired == Group(candidates[..i], now, ConfirmedExpired)
      invariant recent == Group(candidates[..i], now, ConfirmedRecent)
      invariant unconfirmed == Group(candidates[..i], now, Unconfirmed)
    {
      var c := candidates[i];
      assert candidates[..i + 1][..i] == candidates[..i];
      if c.uploaded && now - c.finishedAt >= MINIMUM_RETENTION {
        expired := expired + [c];
      } else if c.uploaded {
        recent := recent + [c];
      } else {
        unconfirmed := unconfirmed + [c];
      }
    }
    assert candidates[..|candidates|] == candidates;
    order := ByAge(expired);
    if pressure {
      order := order + ByAge(recent) + ByAge(unconfirmed);
    }
  }

  // ---- Carrying it out ----

  /** What happened to one candidate; a deletion under pressure is followed by a new measurement. */
  datatype Event = Refused | NotRemoved | Deleted(measured: real)

  predicate Relieved(e: Event) {
    e.Deleted? && e.measured < DISK_PRESSURE_THRESHOLD
  }

  /** The candidates are tried in order, and under pressure the first deletion that brings relief is the last. */
  ghost predicate Faithful(order: seq<Candidate>, pressure: bool, trace: seq<Event>) {
    && |trace| <= |order|
    && (forall i :: 0 <= i < |trace| - 1 ==> !(pressure && Relieved(trace[i])))
    && (|trace| < |order| ==> pressure && trace != [] && Relieved(trace[|trace| - 1]))
  }

  /** Main result: an unconfirmed recording goes only after every confirmed one was tried and usage was still too high. */
  lemma UnconfirmedGoesLast(candidates: seq<Candidate>, now: Time, usage: real, trace: seq<Event>, i: nat)
    requires var pressure := usage >= DISK_PRESSURE_THRESHOLD;
             Faithful(CleanupOrder(candidates, now, pressure), pressure, trace)
    requires i < |trace| && trace[i].Deleted?
    requires !CleanupOrder(candidates, now, usage >= DISK_PRESSURE_THRESHOLD)[i].uploaded
    ensures usage >= 0.9
    ensures var order := CleanupOrder(candidates, now, true);
            && (forall c :: c in candidates && c.uploaded ==> exists k :: 0 <= k < i && order[k] == c)
            && (forall k :: 0 <= k < i && trace[k].Deleted? ==> trace[k].measured >= 0.9)
  {
    var pressure := usage >= DISK_PRESSURE_THRESHOLD;
    var order := CleanupOrder(candidates, now, pressure);
    OrderSelects(candidates, now, pressure);
    assert order[i] in multiset(order);
    forall c | c in candidates && c.uploaded ensures exists k :: 0 <= k < i && order[k] == c {
      assert c in multiset(candidates);
      ConfirmedBefore(order, now, c, i);
    }
    NoReliefBefore(order, trace, i);
  }

  /** A confirmed candidate stands before any unconfirmed one. */
  lemma ConfirmedBefore(order: seq<Candidate>, now: Time, c: Candidate, i: nat)
    requires InOrder(order, now) && i < |order| && !order[i].uploaded && c.uploaded && c in multiset(order)
    ensures exists k :: 0 <= k < i && order[k] == c
  {
    var k :| 0 <= k < |order| && order[k] == c;
    assert k < i;
  }

  /** Under pressure no deletion before the last one brought relief. */
  lemma NoReliefBefore(order: seq<Candidate>, trace: seq<Event>, i: nat)
    requires Faithful(order, true, trace) && i < |trace|
    ensures forall k :: 0 <= k < i && trace[k].Deleted? ==> trace[k].measured >= DISK_PRESSURE_THRESHOLD
  {
    forall k | 0 <= k < i && trace[k].Deleted? ensures trace[k].measured >= DISK_PRESSURE_THRESHOLD {
      assert !Relieved(trace[k]);
    }
  }

  /** The retention pass: the outcome of each deletion and each later measurement is the environment's. */
  method EnforceRetention(candidates: seq<Candidate>, now: Time, usage: real) returns (deleted: nat, trace: seq<Event>)
    ensures var pressure := usage >= DISK_PRESSURE_THRESHOLD;
            Faithful(CleanupOrder(candidates, now, pressure), pressure, trace)
    ensures |trace| < |CleanupOrder(candidates, now, usage >= 0.9)| ==>
              usage >= 0.9 && trace != [] && trace[|trace| - 1].Deleted? && trace[|trace| - 1].measured < 0.9
    ensures deleted == |set i | 0 <= i < |trace| && trace[i].Deleted?|
  {
    var pressure := usage >= DISK_PRESSURE_THRESHOLD;
    var order := SelectForCleanup(candidates, now, pressure);
    deleted, trace := 0, [];
    ghost var hits: set<int> := {};
    var done := false;
    while |trace| < |order| && !done
      invariant |trace| <= |order|
      invariant forall i :: 0 <= i < |trace| - 1 ==> !(pressure && Relieved(trace[i]))
      invariant trace != [] && !done ==> !(pressure && Relieved(trace[|trace| - 1]))
      invariant done ==> pressure && trace != [] && Relieved(trace[|trace| - 1])
      invariant forall i :: i in hits <==> 0 <= i < |trace| && trace[i].Deleted?
      invariant deleted == |hits|
      decreases |order| - |trace|
    {
      var within: bool := *;
      var removed: bool := *;
      if !within {
        trace := trace + [Refused];
      } else if !removed {
        trace := trace + [NotRemoved];
      } else {
        var measured: real := *;
        hits := hits + {|trace|};
        trace := trace + [Deleted(measured)];
        deleted := deleted + 1;
        done := pressure && measured < DISK_PRESSURE_THRESHOLD;
      }
    }
    DeletionsAre(trace, hits);
  }

  lemma DeletionsAre(trace: seq<Event>, hits: set<int>)
    requires forall i :: i in hits <==> 0 <= i < |trace| && trace[i].Deleted?
    ensures hits == set i | 0 <= i < |trace| && trace[i].Deleted?
  {
    var all := set i | 0 <= i < |trace| && trace[i].Deleted?;
    forall i ensures i in hits <==> i in all {
    }
  }
}
