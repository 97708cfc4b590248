/** Datatypes and small collection facts shared by the whole model. */
module Basics {

  datatype Option<+T> = None | Some(value: T)

  /** Moments and durations, in microseconds. */
  type Time = int

  /** Identifiers issued by the database; only their equality matters. */
  datatype Uuid = Uuid(bits: int)

  /** A SHA-256 digest in hexadecimal. */
  datatype Digest = Digest(hex: string)

  /** How many positions of `s` hold a member of `members`. */
  function CountIn<T(==)>(s: seq<T>, members: set<T>): nat {
    if s == [] then 0
    else CountIn(s[..|s| - 1], members) + (if s[|s| - 1] in members then 1 else 0)
  }

  /** `s` lists the elements of a set, each once. */
  ghost predicate Lists<T(!new)>(s: seq<T>, members: set<T>) {
    NoDuplicates(s) && forall x :: x in s <==> x in members
  }

  /** Counting over a list without repetition measures the set of listed members. */
  lemma {:induction false} CountIsCardinality<T>(s: seq<T>, members: set<T>)
    requires NoDuplicates(s)
    requires forall x :: x in members ==> x in s
    ensures CountIn(s, members) == |members|
  {
    if s == [] {
      assert members == {};
    } else {
      var init, last := s[..|s| - 1], s[|s| - 1];
      assert s == init + [last];
      CountIsCardinality(init, members - {last});
      CountUnaffected(init, members, last);
    }
  }

  lemma {:induction false} CountUnaffected<T>(s: seq<T>, members: set<T>, x: T)
    requires x !in s
    ensures CountIn(s, members - {x}) == CountIn(s, members)
  {
    if s != [] {
      CountUnaffected(s[..|s| - 1], members, x);
    }
  }

  lemma {:induction false} ListsLength<T>(s: seq<T>, members: set<T>)
    requires NoDuplicates(s) && forall x :: x in s <==> x in members
    ensures |s| == |members|
  {
    if s == [] {
      assert members == {};
    } else {
      var init, last := s[..|s| - 1], s[|s| - 1];
      assert s == init + [last];
      ListsLength(init, members - {last});
    }
  }

  /** Write the elements of a set as a list. */
  method Enumerate<T(==,!new)>(members: set<T>) returns (s: seq<T>)
    ensures Lists(s, members)
  {
    s := [];
    var todo := members;
    while todo != {}
      invariant todo <= members
      invariant forall i, j :: 0 <= i < j < |s| ==> s[i] != s[j]
      invariant forall x :: x in s <==> x in members && x !in todo
      decreases todo
    {
      var x :| x in todo;
      todo := todo - {x};
      s := s + [x];
    }
  }

  predicate NoDuplicates<T(==)>(s: seq<T>) {
    forall i, j :: 0 <= i < j < |s| ==> s[i] != s[j]
  }
}
