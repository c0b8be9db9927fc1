/** SQL `LIKE` in the rule engine: `%` any run of characters, `_` any one, anything else itself. */
module LikeMatch {
  import opened Glob

  function Element(c: char): Pat<char> {
    if c == '%' then Any else if c == '_' then One else Lit(c)
  }

  function Elements(p: string): (e: seq<Pat<char>>)
    ensures |e| == |p|
  {
    seq(|p|, i requires 0 <= i < |p| => Element(p[i]))
  }

  lemma ElementsTail(p: string, i: nat)
    requires i < |p|
    ensures Elements(p[i..])[0] == Element(p[i]) && Elements(p[i..])[1..] == Elements(p[i + 1..])
  {
    assert p[i..][1..] == p[i + 1..];
  }

  /** The loop with backtracking at every `%` decides exactly the split semantics. */
  method Like(p: string, v: string) returns (r: bool)
    ensures r <==> exists pieces :: Splits(Elements(p), v, pieces)
  {
    r := Rec(p, v);
    MatchesIffSplits(Elements(p), v);
  }

  /** The rest of the pattern from `pi` on matches the rest of the value from `vi` on. */
  ghost predicate At(p: string, v: string, pi: nat, vi: nat)
    requires pi <= |p| && vi <= |v|
  {
    Matches(Elements(p[pi..]), v[vi..])
  }

  lemma AtStart(p: string, v: string)
    ensures At(p, v, 0, 0) <==> Matches(Elements(p), v)
  {
    assert p[0..] == p && v[0..] == v;
  }

  lemma AtEnd(p: string, v: string, vi: nat)
    requires vi <= |v|
    ensures At(p, v, |p|, vi) <==> vi == |v|
  {
    assert p[|p|..] == [];
    assert Elements([]) == [];
  }

  lemma AtPercent(p: string, v: string, pi: nat, vi: nat)
    requires pi < |p| && vi <= |v| && p[pi] == '%'
    ensures At(p, v, pi, vi) <==> exists skip :: vi <= skip <= |v| && Matches(Elements(p[pi + 1..]), v[skip..])
  {
    ElementsTail(p, pi);
    var rest, w := Elements(p[pi + 1..]), v[vi..];
    if At(p, v, pi, vi) {
      var k :| 0 <= k <= |w| && Matches(rest, w[k..]);
      assert w[k..] == v[vi + k..];
    }
    if exists skip :: vi <= skip <= |v| && Matches(rest, v[skip..]) {
      var skip :| vi <= skip <= |v| && Matches(rest, v[skip..]);
      assert w[skip - vi..] == v[skip..];
    }
  }

  lemma AtOther(p: string, v: string, pi: nat, vi: nat)
    requires pi < |p| && vi <= |v| && p[pi] != '%'
    ensures At(p, v, pi, vi) <==> vi < |v| && (p[pi] == '_' || v[vi] == p[pi]) && At(p, v, pi + 1, vi + 1)
  {
    ElementsTail(p, pi);
    if vi < |v| {
      assert v[vi..][1..] == v[vi + 1..];
    }
  }

  method Rec(p: string, v: string) returns (r: bool)
    ensures r <==> Matches(Elements(p), v)
    decreases |p|, 0
  {
    var pi, vi := 0, 0;
    AtStart(p, v);
    while pi < |p|
      invariant 0 <= pi <= |p| && 0 <= vi <= |v|
      invariant Matches(Elements(p), v) <==> At(p, v, pi, vi)
    {
      if p[pi] == '%' {
        AtPercent(p, v, pi, vi);
        r := Backtrack(p[pi + 1..], v, vi);
        return;
      }
      AtOther(p, v, pi, vi);
      if p[pi] == '_' {
        if vi >= |v| {
          return false;
        }
        pi, vi := pi + 1, vi + 1;
      } else {
        if vi >= |v| || v[vi] != p[pi] {
          return false;
        }
        pi, vi := pi + 1, vi + 1;
      }
    }
    AtEnd(p, v, vi);
    return vi == |v|;
  }

  /** Try the rest of the pattern at every position from `from` on. */
  method Backtrack(rest: string, v: string, from: nat) returns (r: bool)
    requires from <= |v|
    ensures r <==> exists skip :: from <= skip <= |v| && Matches(Elements(rest), v[skip..])
    decreases |rest|, 1
  {
    for skip := from to |v| + 1
      invariant forall k :: from <= k < skip ==> !Matches(Elements(rest), v[k..])
    {
      var hit := Rec(rest, v[skip..]);
      if hit {
        return true;
      }
    }
    return false;
  }
}
