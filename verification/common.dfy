/** Types shared by every component of the model. */
module Common {
  /** An octet. A subset type of `int`, so that wire arithmetic needs no casts. */
  type byte = b: int | 0 <= b < 256

  datatype Option<+T> = None | Some(value: T)

  ghost predicate Distinct<T>(s: seq<T>) {
    forall i, j :: 0 <= i < j < |s| ==> s[i] != s[j]
  }

  function Elements<T>(s: seq<T>): set<T> {
    set i | 0 <= i < |s| :: s[i]
  }

  lemma SliceOfSlice<T>(s: seq<T>, a: nat, b: nat, c: nat, d: nat)
    requires a <= b <= |s| && c <= d <= b - a
    ensures s[a..b][c..d] == s[a + c..a + d]
  {
    forall k | 0 <= k < d - c ensures s[a..b][c..d][k] == s[a + c..a + d][k] {
      assert s[a..b][c + k] == s[a + (c + k)];
    }
  }

  lemma ElementsIn<T>(s: seq<T>, x: T)
    ensures x in Elements(s) <==> x in s
  {
  }

  lemma ElementsConcat<T>(a: seq<T>, b: seq<T>)
    ensures Elements(a + b) == Elements(a) + Elements(b)
  {
    forall x | x in Elements(a) + Elements(b) ensures x in Elements(a + b) {
      if x in Elements(a) {
        var i :| 0 <= i < |a| && a[i] == x;
        assert (a + b)[i] == x;
      } else {
        var i :| 0 <= i < |b| && b[i] == x;
        assert (a + b)[|a| + i] == x;
      }
    }
  }

  lemma ElementsSnoc<T>(s: seq<T>, x: T)
    ensures Elements(s + [x]) == Elements(s) + {x}
  {
    ElementsConcat(s, [x]);
    assert [x][0] == x;
  }

  /** The first position of `x`, as the source's `iter().position` finds it. */
  function Position<T(==)>(s: seq<T>, x: T): (r: Option<nat>)
    ensures r.Some? ==> r.value < |s| && s[r.value] == x && x !in s[..r.value]
    ensures r.None? ==> x !in s
  {
    if s == [] then None
    else if s[0] == x then Some(0)
    else
      assert s == [s[0]] + s[1..];
      match Position(s[1..], x)
      case None => None
      case Some(i) =>
        assert s[..i + 1] == [s[0]] + s[1..][..i];
        Some(i + 1)
  }

  /** A sequence without repetitions has as many elements as positions. */
  lemma {:induction false} DistinctCount<T>(s: seq<T>)
    requires Distinct(s)
    ensures |Elements(s)| == |s|
  {
    if s != [] {
      var front, last := s[..|s| - 1], s[|s| - 1];
      DistinctCount(front);
      ElementsSnoc(front, last);
      assert s == front + [last];
      ElementsIn(front, last);
    }
  }

  lemma SubsetCount<T>(a: set<T>, b: set<T>)
    requires a <= b
    ensures |a| <= |b|
  {
    if a != {} {
      var x :| x in a;
      SubsetCount(a - {x}, b - {x});
    }
  }

  /** Two sets that together outnumber their universe share an element. */
  lemma QuorumsMeet<T>(a: set<T>, b: set<T>, universe: set<T>) returns (x: T)
    requires a <= universe && b <= universe
    requires |a| + |b| > |universe|
    ensures x in a && x in b
  {
    SubsetCount(a + b, universe);
    assert |a + b| == |a| + |b| - |a * b|;
    x :| x in a * b;
  }

  /** How often `x` occurs in `s`. */
  function Occurrences<T(==)>(s: seq<T>, x: T): nat {
    if s == [] then 0 else Occurrences(s[..|s| - 1], x) + (if s[|s| - 1] == x then 1 else 0)
  }

  lemma OccurrencesSnoc<T>(s: seq<T>, y: T, x: T)
    ensures Occurrences(s + [y], x) == Occurrences(s, x) + (if y == x then 1 else 0)
  {
    assert (s + [y])[..|s|] == s;
  }

  lemma {:induction false} OccurrencesCons<T>(y: T, s: seq<T>, x: T)
    ensures Occurrences([y] + s, x) == (if y == x then 1 else 0) + Occurrences(s, x)
  {
    if s == [] {
      assert [y] + s == [] + [y];
      OccurrencesSnoc([], y, x);
    } else {
      var front, last := s[..|s| - 1], s[|s| - 1];
      OccurrencesCons(y, front, x);
      assert [y] + s == ([y] + front) + [last] && s == front + [last];
      OccurrencesSnoc([y] + front, last, x);
    }
  }

  /** Without repetitions, once or not at all. */
  lemma {:induction false} DistinctOccurs<T>(s: seq<T>, x: T)
    requires Distinct(s)
    ensures Occurrences(s, x) == if x in s then 1 else 0
  {
    if s != [] {
      var front := s[..|s| - 1];
      DistinctOccurs(front, x);
      assert s == front + [s[|s| - 1]];
    }
  }

  lemma Regroup<T>(a: seq<T>, b: seq<T>, c: seq<T>)
    ensures a + b + c == a + (b + c)
  {
  }

  lemma MulLe(a: nat, b: int, c: int)
    requires b <= c
    ensures a * b <= a * c
  {
  }
}
