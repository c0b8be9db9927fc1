/** The matcher of the routing hot path: a compiled filter against a topic split once into at most 16 levels. */
module TopicFast {
  import opened Glob
  import opened TopicMatch

  const MAX_LEVELS: nat := 16

  datatype CompiledFilter = CompiledFilter(segs: seq<Pat<Text>>, hasMulti: bool)

  function Compile(f: Text): CompiledFilter {
    var segs := Patterns(Split(f, SEP));
    CompiledFilter(segs, Any in segs)
  }

  function TextOf(p: Pat<Text>): Text {
    match p
    case Any => [HASH]
    case One => [PLUS]
    case Lit(x) => x
  }

  /** The filter text rebuilt for the fallback: the segments joined with "/". */
  function Rebuild(segs: seq<Pat<Text>>): Text {
    if segs == [] then []
    else if |segs| == 1 then TextOf(segs[0])
    else TextOf(segs[0]) + [SEP] + Rebuild(segs[1..])
  }

  lemma {:induction false} RebuildCompiled(f: Text)
    ensures Rebuild(Compile(f).segs) == f
    decreases |f|
  {
    var p := TokenEnd(f, 0, SEP);
    if p < |f| {
      RebuildCompiled(f[p + 1..]);
      PatternsCons(f[..p], Split(f[p + 1..], SEP));
      assert f == f[..p] + [SEP] + f[p + 1..];
    }
  }

  // --- the topic view ----------------------------------------------------

  datatype View = View(topic: Text, starts: seq<nat>, n: nat, overflow: bool)

  predicate ViewOk(v: View) {
    && |v.starts| == MAX_LEVELS && v.n <= MAX_LEVELS
    && (forall i, j :: 0 <= i < j < v.n ==> v.starts[i] < v.starts[j])
    && (forall i :: 0 <= i < v.n ==> v.starts[i] <= |v.topic|)
  }

  /** From `a` up to the separator before the next start. */
  function Piece(t: Text, a: nat, next: nat): Text {
    if a < next <= |t| then t[a..next - 1] else if a < next == |t| + 1 then t[a..] else []
  }

  /** Level `k`: up to the separator before the next level, or to the end of the topic. */
  function Get(v: View, k: nat): Text
    requires ViewOk(v) && k < v.n
  {
    Piece(v.topic, v.starts[k], if k + 1 < v.n then v.starts[k + 1] else |v.topic| + 1)
  }

  function ViewLevels(v: View): (s: seq<Text>)
    requires ViewOk(v)
    ensures |s| == v.n
  {
    seq(v.n, k requires 0 <= k < v.n => Get(v, k))
  }

  /** The levels the view shows from `i` on: those of a scan, but a final separator stays in the last one. */
  function ViewedFrom(t: Text, i: nat): seq<Text>
    requires i <= |t|
    decreases |t| - i
  {
    if i == |t| then []
    else
      var p := TokenEnd(t, i, SEP);
      if p + 1 >= |t| then [t[i..]] else [t[i..p]] + ViewedFrom(t, p + 1)
  }

  function Viewed(t: Text): seq<Text> { ViewedFrom(t, 0) }

  lemma {:induction false} TokenEndShift(t: Text, i: nat, j: nat)
    requires i <= j <= |t|
    ensures TokenEnd(t[i..], j - i, SEP) == TokenEnd(t, j, SEP) - i
    decreases |t| - j
  {
    if j < |t| {
      assert t[i..][j - i] == t[j];
      if t[j] != SEP {
        TokenEndShift(t, i, j + 1);
      }
    }
  }

  lemma LevelsCut(s: Text, p: nat)
    requires s != [] && p == TokenEnd(s, 0, SEP)
    ensures p < |s| ==> Levels(s, SEP) == [s[..p]] + Levels(s[p + 1..], SEP)
    ensures p == |s| ==> Levels(s, SEP) == [s]
  {
    if p < |s| {
      assert s[0..p] == s[..p];
    } else {
      assert s[0..] == s && s[|s|..] == [];
    }
  }

  /** The levels from `i` on, one step. */
  lemma LevelsAt(t: Text, i: nat, p: nat)
    requires i < |t| && p == TokenEnd(t, i, SEP)
    ensures p < |t| ==> Levels(t[i..], SEP) == [t[i..p]] + Levels(t[p + 1..], SEP)
    ensures p == |t| ==> Levels(t[i..], SEP) == [t[i..]]
  {
    var u := t[i..];
    TokenEndShift(t, i, i);
    LevelsCut(u, p - i);
    if p < |t| {
      assert u[..p - i] == t[i..p];
      assert u[p - i + 1..] == t[p + 1..];
    }
  }

  /** The levels of a scan that starts at `i`. */
  function LevelsFrom(t: Text, i: nat): seq<Text>
    requires i <= |t|
    decreases |t| - i
  {
    if i == |t| then []
    else
      var p := TokenEnd(t, i, SEP);
      if p == |t| then [t[i..]] else [t[i..p]] + LevelsFrom(t, p + 1)
  }

  lemma LevelsFromMore(t: Text, i: nat, p: nat)
    requires i < |t| && p == TokenEnd(t, i, SEP) < |t|
    ensures LevelsFrom(t, i) == [t[i..p]] + LevelsFrom(t, p + 1)
  {
  }

  predicate SameFrom(t: Text, i: nat)
    requires i <= |t|
  {
    LevelsFrom(t, i) == Levels(t[i..], SEP)
  }

  lemma SameMore(t: Text, i: nat, p: nat)
    requires i < |t| && p == TokenEnd(t, i, SEP) < |t| && SameFrom(t, p + 1)
    ensures SameFrom(t, i)
  {
    LevelsFromMore(t, i, p);
    LevelsAt(t, i, p);
  }

  lemma {:induction false} LevelsFromSuffix(t: Text, i: nat)
    requires i <= |t|
    ensures SameFrom(t, i)
    decreases |t| - i
  {
    if i == |t| {
      assert t[i..] == [];
    } else {
      var p := TokenEnd(t, i, SEP);
      if p == |t| {
        LevelsAt(t, i, p);
      } else {
        LevelsFromSuffix(t, p + 1);
        SameMore(t, i, p);
      }
    }
  }

  lemma {:induction false} ViewedCount(t: Text, i: nat)
    requires i <= |t|
    ensures |ViewedFrom(t, i)| == |LevelsFrom(t, i)|
    decreases |t| - i
  {
    if i < |t| && TokenEnd(t, i, SEP) < |t| {
      ViewedCount(t, TokenEnd(t, i, SEP) + 1);
    }
  }

  lemma {:induction false} ViewedPlain(t: Text, i: nat)
    requires i <= |t| && !EndsInSep(t, SEP)
    ensures ViewedFrom(t, i) == LevelsFrom(t, i)
    decreases |t| - i
  {
    if i < |t| && TokenEnd(t, i, SEP) < |t| {
      ViewedPlain(t, TokenEnd(t, i, SEP) + 1);
    }
  }

  lemma ViewedVsLevels(t: Text)
    ensures |Viewed(t)| == |Levels(t, SEP)|
    ensures !EndsInSep(t, SEP) ==> Viewed(t) == Levels(t, SEP)
  {
    assert t[0..] == t;
    LevelsFromSuffix(t, 0);
    ViewedCount(t, 0);
    if !EndsInSep(t, SEP) {
      ViewedPlain(t, 0);
    }
  }

  /** Offsets at which levels start, from `i` on. */
  function Starts(t: Text, i: nat): seq<nat>
    requires i <= |t|
    decreases |t| - i
  {
    if i == |t| then []
    else
      var p := TokenEnd(t, i, SEP);
      [i] + Starts(t, if p < |t| then p + 1 else |t|)
  }

  predicate Rising(t: Text, ss: seq<nat>) {
    (forall k :: 0 <= k < |ss| ==> ss[k] <= |t|) && forall j, k :: 0 <= j < k < |ss| ==> ss[j] < ss[k]
  }

  lemma {:induction false} StartsRising(t: Text, i: nat)
    requires i <= |t|
    ensures Rising(t, Starts(t, i)) && forall k :: 0 <= k < |Starts(t, i)| ==> i <= Starts(t, i)[k]
    decreases |t| - i
  {
    if i < |t| {
      var p := TokenEnd(t, i, SEP);
      StartsRising(t, if p < |t| then p + 1 else |t|);
    }
  }

  /** The texts between consecutive starts. */
  function Pieces(t: Text, ss: seq<nat>): (r: seq<Text>)
    ensures |r| == |ss|
  {
    if ss == [] then []
    else [Piece(t, ss[0], if |ss| > 1 then ss[1] else |t| + 1)] + Pieces(t, ss[1..])
  }

  lemma {:induction false} PiecesAt(t: Text, ss: seq<nat>, k: nat)
    requires k < |ss|
    ensures Pieces(t, ss)[k] == Piece(t, ss[k], if k + 1 < |ss| then ss[k + 1] else |t| + 1)
    decreases |ss|
  {
    if k > 0 {
      PiecesAt(t, ss[1..], k - 1);
    }
  }

  lemma PiecesCons(t: Text, i: nat, rest: seq<nat>)
    ensures Pieces(t, [i] + rest) == [Piece(t, i, if rest == [] then |t| + 1 else rest[0])] + Pieces(t, rest)
  {
    var ss := [i] + rest;
    assert ss[1..] == rest;
    assert |ss| > 1 ==> ss[1] == rest[0];
  }

  predicate PiecesFit(t: Text, i: nat)
    requires i <= |t|
  {
    Pieces(t, Starts(t, i)) == ViewedFrom(t, i)
  }

  lemma PiecesMore(t: Text, i: nat, p: nat)
    requires i < |t| && p == TokenEnd(t, i, SEP) && p + 1 < |t| && PiecesFit(t, p + 1)
    ensures PiecesFit(t, i)
  {
    PiecesCons(t, i, Starts(t, p + 1));
  }

  lemma PiecesLast(t: Text, i: nat, p: nat)
    requires i < |t| && p == TokenEnd(t, i, SEP) && p + 1 >= |t|
    ensures PiecesFit(t, i)
  {
    assert Starts(t, i) == [i] + [];
    PiecesCons(t, i, []);
  }

  lemma {:induction false} PiecesOfStarts(t: Text, i: nat)
    requires i <= |t|
    ensures PiecesFit(t, i)
    decreases |t| - i
  {
    if i < |t| {
      var p := TokenEnd(t, i, SEP);
      if p + 1 < |t| {
        PiecesOfStarts(t, p + 1);
        PiecesMore(t, i, p);
      } else {
        PiecesLast(t, i, p);
      }
    }
  }

  method FindSep(t: Text, i: nat) returns (p: nat)
    requires i <= |t|
    ensures p == TokenEnd(t, i, SEP)
  {
    p := i;
    while p < |t| && t[p] != SEP
      invariant i <= p <= |t| && TokenEnd(t, p, SEP) == TokenEnd(t, i, SEP)
    {
      p := p + 1;
    }
  }

  /** Scan the topic once, noting where its first 16 levels start. */
  method SplitLevels(t: Text) returns (v: View)
    ensures v.topic == t && v.overflow == (|Levels(t, SEP)| > MAX_LEVELS)
    ensures !v.overflow ==> ViewOk(v) && ViewLevels(v) == Viewed(t)
  {
    var starts := new nat[16];
    var n, i, overflow := 0, 0, false;
    ghost var seen: seq<nat> := [];
    while i < |t|
      invariant 0 <= i <= |t| && n <= 16 && Starts(t, 0) == seen + Starts(t, i)
      invariant if overflow then |seen| > 16 else n == |seen| && starts[..n] == seen
    {
      seen := seen + [i];
      if n < 16 {
        starts[n] := i;
        n := n + 1;
      } else {
        overflow := true;
      }
      var p := FindSep(t, i);
      i := if p < |t| then p + 1 else |t|;
    }
    v := View(t, starts[..], n, overflow);
    assert Starts(t, 0) == seen;
    ViewIsViewed(t, v, seen);
  }

  lemma ViewIsViewed(t: Text, v: View, seen: seq<nat>)
    requires seen == Starts(t, 0) && v.topic == t && |v.starts| == 16 && v.n <= 16
    requires if v.overflow then |seen| > 16 else v.n == |seen| && v.starts[..v.n] == seen
    ensures v.overflow == (|Levels(t, SEP)| > MAX_LEVELS)
    ensures !v.overflow ==> ViewOk(v) && ViewLevels(v) == Viewed(t)
  {
    assert t[0..] == t;
    ViewedVsLevels(t);
    PiecesOfStarts(t, 0);
    if !v.overflow {
      StartsRising(t, 0);
      ViewIsPieces(v, seen);
    }
  }

  lemma ViewIsPieces(v: View, seen: seq<nat>)
    requires Rising(v.topic, seen) && |v.starts| == 16 && v.n == |seen| <= 16 && v.starts[..v.n] == seen
    ensures ViewOk(v) && ViewLevels(v) == Pieces(v.topic, seen)
  {
    assert forall k :: 0 <= k < v.n ==> v.starts[k] == v.starts[..v.n][k];
    forall k | 0 <= k < v.n ensures Get(v, k) == Pieces(v.topic, seen)[k] {
      PiecesAt(v.topic, seen, k);
    }
  }

  /** The view without its first `k` levels. */
  method Sub(v: View, k: nat) returns (w: View)
    requires ViewOk(v) && k <= v.n
    ensures ViewOk(w) && ViewLevels(w) == ViewLevels(v)[k..]
  {
    var m := v.n - k;
    var starts := new nat[16](_ => 0);
    for j := 0 to m
      invariant forall i :: 0 <= i < j ==> starts[i] == v.starts[k + i]
    {
      starts[j] := v.starts[k + j];
    }
    w := View(v.topic, starts[..], m, false);
    assert forall i :: 0 <= i < m ==> w.starts[i] == v.starts[k + i];
    forall i | 0 <= i < m ensures ViewLevels(w)[i] == ViewLevels(v)[k..][i] {
      assert Get(w, i) == Get(v, k + i);
    }
  }

  // --- matching ----------------------------------------------------------

  /** The recursive matcher over segments and levels, trying every split at a `#`. */
  method MatchSegs(segs: seq<Pat<Text>>, v: View) returns (r: bool)
    requires ViewOk(v)
    ensures r == Matches(segs, ViewLevels(v))
    decreases |segs|
  {
    ghost var lv := ViewLevels(v);
    if segs == [] {
      return v.n == 0;
    }
    var rest := segs[1..];
    match segs[0]
    case Any =>
      if rest == [] {
        assert Matches(rest, lv[|lv|..]);
        return true;
      }
      r := MatchSegs(rest, v);
      assert lv[0..] == lv;
      var k := 1;
      while !r && k <= v.n
        invariant 1 <= k <= v.n + 1
        invariant r ==> Matches(segs, lv)
        invariant !r ==> forall j :: 0 <= j < k ==> !Matches(rest, lv[j..])
      {
        var sub := Sub(v, k);
        r := MatchSegs(rest, sub);
        k := k + 1;
      }
    case One =>
      if v.n == 0 {
        return false;
      }
      var sub := Sub(v, 1);
      r := MatchSegs(rest, sub);
    case Lit(e) =>
      if v.n == 0 {
        return false;
      }
      if Get(v, 0) == e {
        var sub := Sub(v, 1);
        r := MatchSegs(rest, sub);
      } else {
        r := false;
      }
  }

  /** The forward matcher for filters without `#`. */
  method MatchForward(segs: seq<Pat<Text>>, v: View) returns (r: bool)
    requires ViewOk(v)
    ensures r == Matches(segs, ViewLevels(v))
  {
    ghost var lv := ViewLevels(v);
    var k := 0;
    assert segs[0..] == segs && lv[0..] == lv;
    for i := 0 to |segs|
      invariant 0 <= k <= v.n
      invariant Matches(segs, lv) == Matches(segs[i..], lv[k..])
    {
      ghost var rest, left := segs[i..], lv[k..];
      assert rest[0] == segs[i] && rest[1..] == segs[i + 1..];
      if segs[i].Any? {
        r := MatchSegs(segs, v);
        return;
      }
      if k >= v.n {
        return false;
      }
      assert left[0] == Get(v, k) && left[1..] == lv[k + 1..];
      if segs[i].Lit? && Get(v, k) != segs[i].item {
        return false;
      }
      k := k + 1;
    }
    return k == v.n;
  }

  method MatchesLevels(c: CompiledFilter, v: View, ghost f: Text, ghost t: Text) returns (r: bool)
    requires c == Compile(f) && v.topic == t && v.overflow == (|Levels(t, SEP)| > MAX_LEVELS)
    requires !v.overflow ==> ViewOk(v) && ViewLevels(v) == Viewed(t)
    ensures r == Fast(f, t)
  {
    if v.overflow {
      RebuildCompiled(f);
      r := MatchLevels(Rebuild(c.segs), v.topic, SEP);
    } else if c.hasMulti {
      r := MatchSegs(c.segs, v);
    } else {
      r := MatchForward(c.segs, v);
    }
  }

  /** What the hot path computes. */
  function Fast(f: Text, t: Text): bool {
    if |Levels(t, SEP)| > MAX_LEVELS then Slow(f, t, SEP) else Matches(Patterns(Split(f, SEP)), Viewed(t))
  }

  lemma PlainFilter(f: Text)
    requires f != [] && !EndsInSep(f, SEP)
    ensures Split(f, SEP) == Levels(f, SEP)
  {
    SplitVsLevels(f, SEP);
  }

  /**
   * For a filter that is not empty and does not end in the separator, and any topic not ending in
   * it, the hot path, the scanning matcher and the level semantics agree.
   */
  lemma FastIsSlow(f: Text, t: Text)
    requires f != [] && !EndsInSep(f, SEP) && !EndsInSep(t, SEP)
    ensures Fast(f, t) == Slow(f, t, SEP)
    ensures Fast(f, t) <==> exists pieces :: Splits(Patterns(Split(f, SEP)), Levels(t, SEP), pieces)
  {
    PlainFilter(f);
    ViewedVsLevels(t);
    SlowIsGlob(f, t, SEP);
    MatchesIffSplits(Patterns(Split(f, SEP)), Levels(t, SEP));
  }
}
