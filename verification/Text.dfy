/** Cutting a text at a separator, and putting it together again. */
module Text {

  predicate IsDigit(c: char) { '0' <= c <= '9' }

  function DigitValue(c: char): (n: nat)
    requires IsDigit(c)
    ensures n < 10
  {
    c as int - '0' as int
  }

  function Digit(n: nat): (c: char)
    requires n < 10
    ensures IsDigit(c)
  {
    '0' + n as char
  }

  /** Decimal digits, padded with zeros to at least `width` of them. */
  function Padded(n: nat, width: nat): string
    decreases n, width
  {
    if n == 0 && width == 0 then ""
    else Padded(n / 10, if width == 0 then 0 else width - 1) + [Digit(n % 10)]
  }

  function ValueOf(digits: string): nat
    requires forall i :: 0 <= i < |digits| ==> IsDigit(digits[i])
  {
    if digits == "" then 0
    else ValueOf(digits[..|digits| - 1]) * 10 + DigitValue(digits[|digits| - 1])
  }

  function Pow10(k: nat): (p: nat)
    ensures p >= 1
  {
    if k == 0 then 1 else 10 * Pow10(k - 1)
  }

  /** Reading back a padded number gives the number, and a number that fits
      takes exactly the width. */
  lemma {:induction false} PaddedReadsBack(n: nat, width: nat)
    ensures forall i :: 0 <= i < |Padded(n, width)| ==> IsDigit(Padded(n, width)[i])
    ensures ValueOf(Padded(n, width)) == n
    ensures n < Pow10(width) ==> |Padded(n, width)| == width
    decreases n, width
  {
    if n != 0 || width != 0 {
      var rest := Padded(n / 10, if width == 0 then 0 else width - 1);
      PaddedReadsBack(n / 10, if width == 0 then 0 else width - 1);
      assert Padded(n, width)[..|rest|] == rest;
    }
  }

  /** A digit string is the padded form of its value. */
  lemma {:induction false} PaddedOfValue(digits: string)
    requires forall i :: 0 <= i < |digits| ==> IsDigit(digits[i])
    ensures ValueOf(digits) < Pow10(|digits|) && Padded(ValueOf(digits), |digits|) == digits
  {
    if digits != "" {
      var n := |digits| - 1;
      var front, last := digits[..n], DigitValue(digits[n]);
      PaddedOfValue(front);
      assert ValueOf(digits) / 10 == ValueOf(front) && ValueOf(digits) % 10 == last;
      assert [Digit(last)] == [digits[n]];
      assert digits == front + [digits[n]];
    }
  }

  predicate Without(s: string, separator: char) {
    forall i :: 0 <= i < |s| ==> s[i] != separator
  }

  /** Where the first separator is. */
  function Head(s: string, separator: char): (n: nat)
    ensures n <= |s| && Without(s[..n], separator) && (n < |s| ==> s[n] == separator)
  {
    if s == "" || s[0] == separator then 0
    else
      var n := 1 + Head(s[1..], separator);
      assert s[..n] == [s[0]] + s[1..][..n - 1];
      n
  }

  /** Split at every separator; always at least one piece. */
  function Split(s: string, separator: char): (pieces: seq<string>)
    ensures |pieces| >= 1
    decreases |s|
  {
    var n := Head(s, separator);
    if n == |s| then [s] else [s[..n]] + Split(s[n + 1..], separator)
  }

  function Join(pieces: seq<string>, separator: char): string
    requires |pieces| >= 1
  {
    if |pieces| == 1 then pieces[0] else pieces[0] + [separator] + Join(pieces[1..], separator)
  }

  function Concat<T>(chunks: seq<seq<T>>): seq<T> {
    if chunks == [] then [] else Concat(chunks[..|chunks| - 1]) + chunks[|chunks| - 1]
  }

  lemma Regroup<T>(a: seq<T>, b: seq<T>, c: seq<T>)
    ensures a + b + c == a + (b + c)
  {
  }

  lemma CutAt(s: string, n: nat, separator: char)
    requires n < |s| && s[n] == separator
    ensures s == s[..n] + [separator] + s[n + 1..]
  {
  }

  lemma JoinCons(piece: string, pieces: seq<string>, separator: char)
    requires |pieces| >= 1
    ensures Join([piece] + pieces, separator) == piece + [separator] + Join(pieces, separator)
  {
    assert ([piece] + pieces)[1..] == pieces;
  }

  lemma {:induction false} JoinSplit(s: string, separator: char)
    ensures Join(Split(s, separator), separator) == s
    decreases |s|
  {
    var n := Head(s, separator);
    if n < |s| {
      JoinSplit(s[n + 1..], separator);
      CutAt(s, n, separator);
      JoinCons(s[..n], Split(s[n + 1..], separator), separator);
    }
  }

  lemma {:induction false} HeadOfPiece(piece: string, rest: string, separator: char)
    requires Without(piece, separator)
    ensures Head(piece + [separator] + rest, separator) == |piece|
    ensures Head(piece, separator) == |piece|
  {
    if piece != "" {
      HeadOfPiece(piece[1..], rest, separator);
      assert (piece + [separator] + rest)[1..] == piece[1..] + [separator] + rest;
    }
  }

  lemma {:induction false} SplitJoin(pieces: seq<string>, separator: char)
    requires |pieces| >= 1 && forall i :: 0 <= i < |pieces| ==> Without(pieces[i], separator)
    ensures Split(Join(pieces, separator), separator) == pieces
  {
    if |pieces| == 1 {
      HeadOfPiece(pieces[0], "", separator);
    } else {
      var rest := Join(pieces[1..], separator);
      SplitJoin(pieces[1..], separator);
      SplitAt(pieces[0], rest, separator);
    }
  }

  lemma SplitSingle(s: string, separator: char)
    requires Without(s, separator)
    ensures Split(s, separator) == [s]
  {
    HeadOfPiece(s, "", separator);
  }

  /** The first piece of a text, and the rest. */
  lemma SplitAt(piece: string, rest: string, separator: char)
    requires Without(piece, separator)
    ensures Split(piece + [separator] + rest, separator) == [piece] + Split(rest, separator)
  {
    HeadOfPiece(piece, rest, separator);
    var s := piece + [separator] + rest;
    assert s[..|piece|] == piece && s[|piece| + 1..] == rest;
  }

  /** Splitting two texts joined by a separator splits each of them. */
  lemma {:induction false} SplitConcat(a: string, b: string, separator: char)
    ensures Split(a + [separator] + b, separator) == Split(a, separator) + Split(b, separator)
    decreases |a|
  {
    var n := Head(a, separator);
    if n == |a| {
      assert a[..n] == a;
      SplitAt(a, b, separator);
    } else {
      var front, back := a[..n], a[n + 1..];
      CutAt(a, n, separator);
      Regroup(front + [separator], back, [separator] + b);
      Regroup(back, [separator], b);
      Regroup(a, [separator], b);
      SplitAt(front, back + [separator] + b, separator);
      SplitAt(front, back, separator);
      SplitConcat(back, b, separator);
      Regroup([front], Split(back, separator), Split(b, separator));
    }
  }

  lemma {:induction false} PiecesWithout(s: string, separator: char)
    ensures forall i :: 0 <= i < |Split(s, separator)| ==> Without(Split(s, separator)[i], separator)
    decreases |s|
  {
    var n := Head(s, separator);
    if n == |s| {
      assert s[..n] == s;
    } else {
      PiecesWithout(s[n + 1..], separator);
    }
  }
}
