/**
 * Patterns over sequences: `Any` stands for any run of items, `One` for exactly one, `Lit(x)` for
 * `x` itself. Topic filters are patterns over levels, LIKE patterns are patterns over characters.
 */
module Glob {
  datatype Pat<T> = Any | One | Lit(item: T)

  /** Declarative meaning: the value splits into one piece per pattern element. */
  predicate Fits<T(==)>(p: Pat<T>, piece: seq<T>) {
    match p
    case Any => true
    case One => |piece| == 1
    case Lit(x) => piece == [x]
  }

  function Join<T>(pieces: seq<seq<T>>): seq<T> {
    if pieces == [] then [] else pieces[0] + Join(pieces[1..])
  }

  predicate Splits<T(==)>(p: seq<Pat<T>>, v: seq<T>, pieces: seq<seq<T>>) {
    |pieces| == |p| && Join(pieces) == v && forall i :: 0 <= i < |p| ==> Fits(p[i], pieces[i])
  }

  /** Operational meaning, by recursion on the pattern. */
  predicate Matches<T(==)>(p: seq<Pat<T>>, v: seq<T>)
    decreases |p|
  {
    if p == [] then v == []
    else
      match p[0]
      case Any => exists k | 0 <= k <= |v| :: Matches(p[1..], v[k..])
      case One => v != [] && Matches(p[1..], v[1..])
      case Lit(x) => v != [] && v[0] == x && Matches(p[1..], v[1..])
  }

  lemma {:induction false} MatchesSplits<T>(p: seq<Pat<T>>, v: seq<T>) returns (pieces: seq<seq<T>>)
    requires Matches(p, v)
    ensures Splits(p, v, pieces)
    decreases |p|
  {
    if p == [] {
      pieces := [];
    } else {
      var k := if p[0].Any? then var k :| 0 <= k <= |v| && Matches(p[1..], v[k..]); k else 1;
      var rest := MatchesSplits(p[1..], v[k..]);
      pieces := [v[..k]] + rest;
      assert pieces[1..] == rest;
      assert forall i :: 0 < i < |p| ==> p[i] == p[1..][i - 1];
    }
  }

  lemma {:induction false} SplitsMatches<T>(p: seq<Pat<T>>, v: seq<T>, pieces: seq<seq<T>>)
    requires Splits(p, v, pieces)
    ensures Matches(p, v)
    decreases |p|
  {
    if p != [] {
      var k := |pieces[0]|;
      assert Fits(p[0], pieces[0]);
      assert v[..k] == pieces[0] && v[k..] == Join(pieces[1..]);
      assert forall i :: 0 <= i < |p| - 1 ==> p[1..][i] == p[i + 1] && pieces[1..][i] == pieces[i + 1];
      SplitsMatches(p[1..], v[k..], pieces[1..]);
    }
  }

  /** A pattern matches exactly the values that split along it. */
  lemma MatchesIffSplits<T(!new)>(p: seq<Pat<T>>, v: seq<T>)
    ensures Matches(p, v) <==> exists pieces :: Splits(p, v, pieces)
  {
    if Matches(p, v) {
      var pieces := MatchesSplits(p, v);
    }
    if exists pieces :: Splits(p, v, pieces) {
      var pieces :| Splits(p, v, pieces);
      SplitsMatches(p, v, pieces);
    }
  }

  /** A pattern that matches nothing at all is made of `Any` only, so it matches everything. */
  lemma {:induction false} EmptyMatchesAll<T>(p: seq<Pat<T>>, v: seq<T>)
    requires Matches(p, []) && p != []
    ensures Matches(p, v)
    decreases |p|
  {
    assert p[0].Any?;
    var empty: seq<T> := [];
    var k :| 0 <= k <= |empty| && Matches(p[1..], empty[k..]);
    assert empty[k..] == [];
    if |p| == 1 {
      assert v[|v|..] == [] && Matches(p[1..], v[|v|..]);
    } else {
      EmptyMatchesAll(p[1..], v);
      assert v[0..] == v;
    }
  }

  predicate SomeSuffix<T(==)>(p: seq<Pat<T>>, v: seq<T>) {
    exists k | 0 <= k <= |v| :: Matches(p, v[k..])
  }

  lemma SuffixStep<T>(p: seq<Pat<T>>, v: seq<T>)
    ensures v == [] ==> (SomeSuffix(p, v) <==> Matches(p, v))
    ensures v != [] ==> (SomeSuffix(p, v) <==> Matches(p, v) || SomeSuffix(p, v[1..]))
  {
    assert v[0..] == v;
    if v != [] {
      if SomeSuffix(p, v[1..]) {
        var k :| 0 <= k <= |v[1..]| && Matches(p, v[1..][k..]);
        assert v[1..][k..] == v[k + 1..];
      }
      if SomeSuffix(p, v) {
        var k :| 0 <= k <= |v| && Matches(p, v[k..]);
        if k > 0 {
          assert v[1..][k - 1..] == v[k..];
        }
      }
    } else if SomeSuffix(p, v) {
      var k :| 0 <= k <= |v| && Matches(p, v[k..]);
      assert v[k..] == v;
    }
  }
}
