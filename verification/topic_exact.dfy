/** Exactly which filters and which topics the hot path and the scanning matcher agree on. */
module TopicExact {
  import opened Common
  import opened Glob
  import opened TopicMatch
  import opened TopicFast

  function Front(s: seq<Text>): seq<Text>
    requires s != []
  {
    s[..|s| - 1]
  }

  function Last(s: seq<Text>): Text
    requires s != []
  {
    s[|s| - 1]
  }

  // --- levels of joined texts --------------------------------------------

  lemma {:induction false} TokenEndJoined(g: Text, h: Text, i: nat)
    requires i <= |g|
    ensures TokenEnd(g + [SEP] + h, i, SEP) == TokenEnd(g, i, SEP)
    decreases |g| - i
  {
    if i < |g| && g[i] != SEP {
      TokenEndJoined(g, h, i + 1);
    }
  }

  lemma JoinedParts(g: Text, h: Text, p: nat)
    requires p <= |g|
    ensures (g + [SEP] + h)[..p] == g[..p]
    ensures (g + [SEP] + h)[p + 1..] == if p < |g| then g[p + 1..] + [SEP] + h else h
  {
  }

  /** A scan over two texts with a separator between them visits what `split` finds in the first, then the second's levels. */
  predicate Joins(g: Text, h: Text) {
    Levels(g + [SEP] + h, SEP) == Split(g, SEP) + Levels(h, SEP)
  }

  lemma JoinsMore(g: Text, h: Text, p: nat)
    requires p == TokenEnd(g, 0, SEP) < |g| && Joins(g[p + 1..], h)
    ensures Joins(g, h)
  {
    TokenEndJoined(g, h, 0);
    LevelsCut(g + [SEP] + h, p);
    JoinedParts(g, h, p);
    FirstLevel(g, SEP, p);
    Regroup([g[..p]], Split(g[p + 1..], SEP), Levels(h, SEP));
  }

  lemma {:induction false} LevelsJoined(g: Text, h: Text)
    ensures Joins(g, h)
    decreases |g|
  {
    var p := TokenEnd(g, 0, SEP);
    if p < |g| {
      LevelsJoined(g[p + 1..], h);
      JoinsMore(g, h, p);
    } else {
      TokenEndJoined(g, h, 0);
      LevelsCut(g + [SEP] + h, p);
      JoinedParts(g, h, p);
      assert g[..p] == g;
    }
  }

  lemma LevelsSnoc(g: Text)
    ensures Levels(g + [SEP], SEP) == Split(g, SEP)
  {
    LevelsJoined(g, []);
    assert g + [SEP] + [] == g + [SEP];
  }

  predicate NoSep(x: Text) { SEP !in x }

  lemma {:induction false} LevelsNoSep(t: Text)
    ensures forall x :: x in Levels(t, SEP) ==> NoSep(x)
    decreases |t|
  {
    if t != [] {
      var p := TokenEnd(t, 0, SEP);
      LevelsCut(t, p);
      forall k | 0 <= k < p ensures t[k] != SEP {
        NoSepBefore(t, 0, SEP, k);
      }
      if p < |t| {
        LevelsNoSep(t[p + 1..]);
      } else {
        assert t == t[..p];
      }
    }
  }

  lemma {:induction false} LastLevel(t: Text)
    requires t != [] && !EndsInSep(t, SEP)
    ensures Levels(t, SEP) != [] && Last(Levels(t, SEP)) != []
    decreases |t|
  {
    var p := TokenEnd(t, 0, SEP);
    LevelsCut(t, p);
    if p < |t| {
      LastLevel(t[p + 1..]);
    }
  }

  /** A topic with the given levels. */
  function TopicOf(levels: seq<Text>): Text {
    if levels == [] then []
    else if |levels| == 1 then levels[0]
    else levels[0] + [SEP] + TopicOf(levels[1..])
  }

  lemma SplitOne(x: Text)
    requires NoSep(x)
    ensures Split(x, SEP) == [x]
    ensures x != [] ==> Levels(x, SEP) == [x]
  {
    TokenEndAt(x, 0, |x|, SEP);
    if x != [] {
      LevelsCut(x, |x|);
    }
  }

  /** Levels without separators, the last of them not empty, are the levels of a topic that does not end in the separator. */
  lemma {:induction false} LevelsOfTopic(levels: seq<Text>)
    requires forall x :: x in levels ==> NoSep(x)
    requires levels != [] ==> Last(levels) != []
    ensures Levels(TopicOf(levels), SEP) == levels && !EndsInSep(TopicOf(levels), SEP)
    ensures levels != [] ==> TopicOf(levels) != []
    decreases |levels|
  {
    if |levels| == 1 {
      SplitOne(levels[0]);
    } else if |levels| > 1 {
      var rest := levels[1..];
      LevelsOfTopic(rest);
      SplitOne(levels[0]);
      LevelsJoined(levels[0], TopicOf(rest));
      assert levels == [levels[0]] + rest;
    }
  }

  // --- facts about patterns ----------------------------------------------

  lemma {:induction false} LastLit<T>(p: seq<Pat<T>>, x: T, v: seq<T>)
    requires Matches(p + [Lit(x)], v)
    ensures v != [] && v[|v| - 1] == x
    decreases |p|
  {
    var q := p + [Lit(x)];
    if p == [] {
      assert q[1..] == [];
    } else {
      assert q[1..] == p[1..] + [Lit(x)];
      var k := if q[0].Any? then var k :| 0 <= k <= |v| && Matches(q[1..], v[k..]); k else 1;
      LastLit(p[1..], x, v[k..]);
    }
  }

  lemma {:induction false} SelfMatch(l: seq<Text>)
    ensures Matches(Patterns(l), l)
    decreases |l|
  {
    if l != [] {
      SelfMatch(l[1..]);
      assert l == [l[0]] + l[1..];
      PatternsCons(l[0], l[1..]);
    }
  }

  /** A final `Any` takes whatever is left. */
  lemma {:induction false} AnyTakesRest<T>(p: seq<Pat<T>>, v: seq<T>, w: seq<T>)
    requires Matches(p, v)
    ensures Matches(p + [Any], v + w)
    decreases |p|
  {
    var q := p + [Any];
    if p == [] {
      assert q[1..] == [] && (v + w)[|w|..] == [];
    } else {
      assert q[1..] == p[1..] + [Any];
      var k := if p[0].Any? then var k :| 0 <= k <= |v| && Matches(p[1..], v[k..]); k else 1;
      AnyTakesRest(p[1..], v[k..], w);
      assert (v + w)[k..] == v[k..] + w;
    }
  }

  /** The pattern without its `Any` elements. */
  function Solid<T>(p: seq<Pat<T>>): (r: seq<Pat<T>>)
    ensures |r| <= |p| && Any !in r
  {
    if p == [] then [] else (if p[0].Any? then [] else [p[0]]) + Solid(p[1..])
  }

  lemma {:induction false} SolidEnough<T>(p: seq<Pat<T>>, v: seq<T>)
    requires Matches(Solid(p), v)
    ensures Matches(p, v)
    decreases |p|
  {
    if p != [] {
      if p[0].Any? {
        assert Solid(p) == Solid(p[1..]);
        SolidEnough(p[1..], v);
        assert v[0..] == v;
      } else {
        assert Solid(p)[1..] == Solid(p[1..]);
        SolidEnough(p[1..], v[1..]);
      }
    }
  }

  /** A match has an item for every other element; with no more than that, every `Any` stands for nothing. */
  lemma {:induction false} SolidNeeded<T>(p: seq<Pat<T>>, v: seq<T>)
    requires Matches(p, v)
    ensures |Solid(p)| <= |v|
    ensures |Solid(p)| == |v| ==> Matches(Solid(p), v)
    decreases |p|
  {
    if p != [] {
      if p[0].Any? {
        var k :| 0 <= k <= |v| && Matches(p[1..], v[k..]);
        SolidNeeded(p[1..], v[k..]);
        assert Solid(p) == Solid(p[1..]);
        assert k == 0 ==> v[k..] == v;
      } else {
        assert Solid(p)[1..] == Solid(p[1..]);
        SolidNeeded(p[1..], v[1..]);
      }
    }
  }

  lemma SolidSnocAny<T>(p: seq<Pat<T>>)
    ensures Solid(p + [Any]) == Solid(p)
    decreases |p|
  {
    var q := p + [Any];
    if p == [] {
      assert q[1..] == [];
    } else {
      assert q[1..] == p[1..] + [Any];
      SolidSnocAny(p[1..]);
    }
  }

  /** The last item may be exchanged for another when the pattern names neither. */
  lemma {:induction false} LastUnnamed<T>(p: seq<Pat<T>>, u: seq<T>, a: T, b: T)
    requires Lit(a) !in p && Lit(b) !in p && Matches(p, u + [a])
    ensures Matches(p, u + [b])
    decreases |p|
  {
    var v, w := u + [a], u + [b];
    if p != [] {
      var k := if p[0].Any? then var k :| 0 <= k <= |v| && Matches(p[1..], v[k..]); k else 1;
      assert p[0] == Lit(v[0]) ==> u != [];
      if k <= |u| {
        assert v[k..] == u[k..] + [a] && w[k..] == u[k..] + [b];
        LastUnnamed(p[1..], u[k..], a, b);
      } else {
        assert v[k..] == w[k..];
      }
    }
  }

  lemma {:induction false} SuffixOccurs<T>(v: seq<T>, k: nat, x: T)
    requires k <= |v|
    ensures Occurrences(v[k..], x) <= Occurrences(v, x)
    decreases k
  {
    if k == 0 {
      assert v[0..] == v;
    } else {
      assert v == [v[0]] + v[1..] && v[k..] == v[1..][k - 1..];
      SuffixOccurs(v[1..], k - 1, x);
      OccurrencesCons(v[0], v[1..], x);
    }
  }

  /** A match has an item for every literal that names it. */
  lemma {:induction false} LitsNeeded<T(!new)>(p: seq<Pat<T>>, v: seq<T>, x: T)
    requires Matches(p, v)
    ensures Occurrences(p, Lit(x)) <= Occurrences(v, x)
    decreases |p|
  {
    if p != [] {
      var k := if p[0].Any? then var k :| 0 <= k <= |v| && Matches(p[1..], v[k..]); k else 1;
      LitsNeeded(p[1..], v[k..], x);
      assert p == [p[0]] + p[1..];
      OccurrencesCons(p[0], p[1..], Lit(x));
      if p[0].Any? {
        SuffixOccurs(v, k, x);
      } else {
        assert v == [v[0]] + v[1..];
        OccurrencesCons(v[0], v[1..], x);
      }
    }
  }

  predicate Wild(level: Text) { level == [PLUS] || level == [HASH] }

  lemma PatternsSnoc(l: seq<Text>, x: Text)
    ensures Patterns(l + [x]) == Patterns(l) + [Pattern(x)]
  {
  }

  lemma {:induction false} LitsOfPatterns(l: seq<Text>, x: Text)
    requires !Wild(x)
    ensures Occurrences(Patterns(l), Lit(x)) == Occurrences(l, x)
    decreases |l|
  {
    if l != [] {
      var front, last := l[..|l| - 1], l[|l| - 1];
      assert l == front + [last];
      LitsOfPatterns(front, x);
      PatternsSnoc(front, last);
      OccurrencesSnoc(Patterns(front), Pattern(last), Lit(x));
    }
  }

  lemma NoSuchLit(levels: seq<Text>, x: Text)
    requires x !in levels || Wild(x)
    ensures Lit(x) !in Patterns(levels)
  {
  }

  // --- filters, over topics that do not end in the separator --------------

  lemma NeverMatches(t: Text, levels: seq<Text>)
    requires levels != [] && Last(levels) == [] && !EndsInSep(t, SEP)
    ensures !Matches(Patterns(levels), Levels(t, SEP))
  {
    var ps, k := Patterns(levels), |levels| - 1;
    assert ps == ps[..k] + [Lit([])];
    if Matches(ps, Levels(t, SEP)) {
      LastLit(ps[..k], [], Levels(t, SEP));
      LastLevel(t);
    }
  }

  /** Neither empty nor a non-empty level followed by a final separator. */
  predicate Trusted(f: Text) {
    f != [] && (!EndsInSep(f, SEP) || |f| == 1 || f[|f| - 2] == SEP)
  }

  lemma SplitEndsEmpty(g: Text)
    requires g == [] || EndsInSep(g, SEP)
    ensures Split(g, SEP) == Levels(g, SEP) + [[]] && Last(Split(g, SEP)) == []
  {
    SplitVsLevels(g, SEP);
  }

  /** A trusted filter that ends in the separator has an empty last level both ways. */
  lemma TrustedEmptyLast(f: Text)
    requires Trusted(f) && EndsInSep(f, SEP)
    ensures Levels(f, SEP) != [] && Last(Levels(f, SEP)) == []
    ensures Split(f, SEP) == Levels(f, SEP) + [[]]
  {
    var g := f[..|f| - 1];
    assert f == g + [SEP];
    SplitEndsEmpty(f);
    SplitEndsEmpty(g);
    LevelsSnoc(g);
  }

  lemma TrustedAgrees(f: Text, t: Text)
    requires Trusted(f) && !EndsInSep(t, SEP)
    ensures Fast(f, t) == Slow(f, t, SEP)
  {
    if EndsInSep(f, SEP) {
      TrustedEmptyLast(f);
      ViewedVsLevels(t);
      SlowIsGlob(f, t, SEP);
      NeverMatches(t, Levels(f, SEP));
      NeverMatches(t, Split(f, SEP));
    } else {
      FastIsSlow(f, t);
    }
  }

  /** The levels other than `#`. */
  function Counted(levels: seq<Text>): (r: seq<Text>)
    ensures forall x :: x in r ==> x in levels
  {
    if levels == [] then [] else (if levels[0] == [HASH] then [] else [levels[0]]) + Counted(levels[1..])
  }

  /**
   * The levels a topic matching the filter needs at least: one for every level other than `#`, and
   * one more when the last of those is empty, for a topic's last level is not.
   */
  function MinLevels(f: Text): nat {
    var c := Counted(Levels(f, SEP));
    |c| + if c != [] && Last(c) == [] then 1 else 0
  }

  lemma {:induction false} CountedIsSolid(levels: seq<Text>)
    ensures Solid(Patterns(levels)) == Patterns(Counted(levels))
    decreases |levels|
  {
    if levels != [] {
      var rest := levels[1..];
      assert levels == [levels[0]] + rest;
      PatternsCons(levels[0], rest);
      CountedIsSolid(rest);
      if levels[0] != [HASH] {
        PatternsCons(levels[0], Counted(rest));
        assert Patterns(Counted(levels)) == [Pattern(levels[0])] + Patterns(Counted(rest));
      }
    }
  }

  /** A scanned match needs that many levels. */
  lemma MinLevelsNeeded(f: Text, t: Text)
    requires Slow(f, t, SEP) && !EndsInSep(t, SEP)
    ensures |Levels(t, SEP)| >= MinLevels(f)
  {
    var ps, c, v := Patterns(Levels(f, SEP)), Counted(Levels(f, SEP)), Levels(t, SEP);
    SlowIsGlob(f, t, SEP);
    SolidNeeded(ps, v);
    CountedIsSolid(Levels(f, SEP));
    if c != [] && Last(c) == [] && |c| == |v| {
      NeverMatches(t, c);
      assert false;
    }
  }

  lemma {:induction false} LastCounted(levels: seq<Text>)
    requires levels != [] && Last(levels) != [HASH]
    ensures Counted(levels) != [] && Last(Counted(levels)) == Last(levels)
    decreases |levels|
  {
    if |levels| > 1 {
      LastCounted(levels[1..]);
    }
  }

  /** The levels of a shortest matching topic: the filter's own without `#`, and a `#` after an empty one standing for one level. */
  lemma ShortestLevels(levels: seq<Text>) returns (v: seq<Text>)
    requires forall x :: x in levels ==> NoSep(x)
    requires levels != [] ==> Last(levels) != []
    ensures Matches(Patterns(levels), v)
    ensures forall x :: x in v ==> NoSep(x)
    ensures v != [] ==> Last(v) != []
    ensures |v| == |Counted(levels)| + if Counted(levels) != [] && Last(Counted(levels)) == [] then 1 else 0
  {
    var c, ps := Counted(levels), Patterns(levels);
    CountedIsSolid(levels);
    SelfMatch(c);
    if c == [] || Last(c) != [] {
      v := c;
      SolidEnough(ps, v);
    } else {
      v := c + [[PLUS]];
      if Last(levels) != [HASH] {
        LastCounted(levels);
        assert false;
      }
      var front := ps[..|ps| - 1];
      assert ps == front + [Any];
      SolidSnocAny(front);
      SolidEnough(front, c);
      AnyTakesRest(front, c, [[PLUS]]);
    }
  }

  /** An untrusted filter: `split` finds an empty level after its last, non-empty one. */
  lemma UntrustedShape(f: Text)
    requires !Trusted(f)
    ensures Split(f, SEP) == Levels(f, SEP) + [[]]
    ensures Levels(f, SEP) != [] ==> Last(Levels(f, SEP)) != []
  {
    SplitVsLevels(f, SEP);
    if f != [] {
      var g := f[..|f| - 1];
      assert f == g + [SEP];
      LevelsSnoc(g);
      PlainFilter(g);
      LastLevel(g);
    }
  }

  /** No topic of at most 16 levels that does not end in the separator matches on the hot path. */
  lemma UntrustedNeverFast(f: Text, t: Text)
    requires !Trusted(f) && !EndsInSep(t, SEP) && |Levels(t, SEP)| <= MAX_LEVELS
    ensures !Fast(f, t)
  {
    ViewedVsLevels(t);
    UntrustedShape(f);
    NeverMatches(t, Split(f, SEP));
  }

  /** A filter that is not trusted but needs few enough levels differs on a topic. */
  lemma UntrustedDiffers(f: Text) returns (t: Text)
    requires !Trusted(f) && MinLevels(f) <= MAX_LEVELS
    ensures !EndsInSep(t, SEP) && Slow(f, t, SEP) && !Fast(f, t)
  {
    UntrustedShape(f);
    LevelsNoSep(f);
    var v := ShortestLevels(Levels(f, SEP));
    t := TopicOf(v);
    LevelsOfTopic(v);
    SlowIsGlob(f, t, SEP);
    UntrustedNeverFast(f, t);
  }

  /** Past 16 levels both are the scan, and a shorter topic matches neither way. */
  lemma LongUntrustedAgrees(f: Text, t: Text)
    requires !Trusted(f) && MinLevels(f) > MAX_LEVELS && !EndsInSep(t, SEP)
    ensures Fast(f, t) == Slow(f, t, SEP)
  {
    if |Levels(t, SEP)| <= MAX_LEVELS {
      if Slow(f, t, SEP) {
        MinLevelsNeeded(f, t);
        assert false;
      }
      UntrustedNeverFast(f, t);
    }
  }

  /** A filter agrees on every topic that does not end in the separator exactly when it is trusted or needs more than 16 levels. */
  lemma FilterAgreesIff(f: Text)
    ensures (forall t :: !EndsInSep(t, SEP) ==> Fast(f, t) == Slow(f, t, SEP))
        <==> Trusted(f) || MinLevels(f) > MAX_LEVELS
  {
    if Trusted(f) {
      forall t | !EndsInSep(t, SEP) ensures Fast(f, t) == Slow(f, t, SEP) {
        TrustedAgrees(f, t);
      }
    } else if MinLevels(f) > MAX_LEVELS {
      forall t | !EndsInSep(t, SEP) ensures Fast(f, t) == Slow(f, t, SEP) {
        LongUntrustedAgrees(f, t);
      }
    } else {
      var t := UntrustedDiffers(f);
    }
  }

  // --- topics, over trusted filters ---------------------------------------

  /** The levels, with the separator kept in the last one. */
  predicate KeepsSep(view: seq<Text>, levels: seq<Text>) {
    levels != [] && view == Front(levels) + [Last(levels) + [SEP]]
  }

  lemma KeepsSepCons(x: Text, view: seq<Text>, levels: seq<Text>)
    requires KeepsSep(view, levels)
    ensures KeepsSep([x] + view, [x] + levels)
  {
    assert Front([x] + levels) == [x] + Front(levels);
  }

  predicate KeptFrom(t: Text, i: nat)
    requires i <= |t|
  {
    KeepsSep(ViewedFrom(t, i), LevelsFrom(t, i))
  }

  lemma KeptLast(t: Text, i: nat)
    requires i < |t| && TokenEnd(t, i, SEP) + 1 == |t|
    ensures KeptFrom(t, i)
  {
    var p := TokenEnd(t, i, SEP);
    assert LevelsFrom(t, i) == [t[i..p]];
    assert t[i..] == t[i..p] + [SEP];
  }

  lemma KeptMore(t: Text, i: nat, p: nat)
    requires i < |t| && TokenEnd(t, i, SEP) == p && p + 1 < |t| && KeptFrom(t, p + 1)
    ensures KeptFrom(t, i)
  {
    KeepsSepCons(t[i..p], ViewedFrom(t, p + 1), LevelsFrom(t, p + 1));
  }

  lemma TrailingSepSeen(t: Text, i: nat)
    requires i < |t| && EndsInSep(t, SEP)
    ensures TokenEnd(t, i, SEP) < |t|
  {
    if TokenEnd(t, i, SEP) == |t| {
      NoSepBefore(t, i, SEP, |t| - 1);
    }
  }

  lemma {:induction false} ViewedTrailing(t: Text, i: nat)
    requires i < |t| && EndsInSep(t, SEP)
    ensures KeptFrom(t, i)
    decreases |t| - i
  {
    var p := TokenEnd(t, i, SEP);
    TrailingSepSeen(t, i);
    if p + 1 == |t| {
      KeptLast(t, i);
    } else {
      ViewedTrailing(t, p + 1);
      KeptMore(t, i, p);
    }
  }

  lemma TrailingView(t: Text)
    requires EndsInSep(t, SEP)
    ensures Levels(t, SEP) != [] && Viewed(t) == Front(Levels(t, SEP)) + [Last(Levels(t, SEP)) + [SEP]]
  {
    assert t[0..] == t;
    LevelsFromSuffix(t, 0);
    ViewedTrailing(t, 0);
    assert KeepsSep(Viewed(t), Levels(t, SEP));
  }

  /** No literal names a wildcard level or a level with a separator in it. */
  lemma WildTopicAgrees(f: Text, t: Text)
    requires Trusted(f) && EndsInSep(t, SEP) && Levels(t, SEP) != [] && Wild(Last(Levels(t, SEP)))
    ensures Fast(f, t) == Slow(f, t, SEP)
  {
    TrailingView(t);
    var u, a := Front(Levels(t, SEP)), Last(Levels(t, SEP));
    var b, levels := a + [SEP], Levels(f, SEP);
    assert Levels(t, SEP) == u + [a];
    SlowIsGlob(f, t, SEP);
    if EndsInSep(f, SEP) {
      TrustedEmptyLast(f);
      EmptyLastFails(levels, u, a);
      EmptyLastFails(levels + [[]], u, b);
    } else {
      PlainFilter(f);
      LevelsNoSep(f);
      assert b[1] == SEP;
      NoSuchLit(levels, a);
      NoSuchLit(levels, b);
      SwapLast(Patterns(levels), u, a, b);
    }
  }

  lemma EmptyLastFails(levels: seq<Text>, u: seq<Text>, a: Text)
    requires levels != [] && Last(levels) == [] && a != []
    ensures !Matches(Patterns(levels), u + [a])
  {
    var ps := Patterns(Front(levels));
    assert levels == Front(levels) + [[]];
    PatternsSnoc(Front(levels), []);
    if Matches(Patterns(levels), u + [a]) {
      LastLit(ps, [], u + [a]);
    }
  }

  lemma SwapLast<T>(p: seq<Pat<T>>, u: seq<T>, a: T, b: T)
    requires Lit(a) !in p && Lit(b) !in p
    ensures Matches(p, u + [a]) == Matches(p, u + [b])
  {
    if Matches(p, u + [a]) {
      LastUnnamed(p, u, a, b);
    } else if Matches(p, u + [b]) {
      LastUnnamed(p, u, b, a);
    }
  }

  /** One literal more names `a` than there are items equal to it. */
  lemma OneTooMany(u: seq<Text>, a: Text, b: Text)
    requires !Wild(a) && a != b
    ensures !Matches(Patterns(u + [a]) + [Any], u + [b])
  {
    var p := Patterns(u + [a]);
    if Matches(p + [Any], u + [b]) {
      LitsNeeded(p + [Any], u + [b], a);
      OccurrencesSnoc(p, Any, Lit(a));
      LitsOfPatterns(u + [a], a);
      OccurrencesSnoc(u, a, a);
      OccurrencesSnoc(u, b, a);
    }
  }

  /** A topic ending in the separator whose last level is not a wildcard: the filter that adds a `#` to it. */
  lemma TrailingTopicDiffers(t: Text)
    requires EndsInSep(t, SEP) && Levels(t, SEP) != [] && !Wild(Last(Levels(t, SEP)))
    requires |Levels(t, SEP)| <= MAX_LEVELS
    ensures Trusted(t + [HASH]) && Slow(t + [HASH], t, SEP) && !Fast(t + [HASH], t)
  {
    var f, v := t + [HASH], Levels(t, SEP);
    HashAdded(t);
    PlainFilter(f);
    PatternsSnoc(v, [HASH]);
    SelfMatch(v);
    AnyTakesRest(Patterns(v), v, []);
    assert v + [] == v;
    SlowIsGlob(f, t, SEP);
    TrailingViewFails(t, v);
  }

  lemma TrailingViewFails(t: Text, v: seq<Text>)
    requires EndsInSep(t, SEP) && v == Levels(t, SEP) && v != [] && !Wild(Last(v))
    ensures !Matches(Patterns(v) + [Any], Viewed(t))
  {
    TrailingView(t);
    assert v == Front(v) + [Last(v)];
    OneTooMany(Front(v), Last(v), Last(v) + [SEP]);
  }

  lemma HashAdded(t: Text)
    requires EndsInSep(t, SEP)
    ensures Levels(t + [HASH], SEP) == Levels(t, SEP) + [[HASH]] && !EndsInSep(t + [HASH], SEP)
  {
    var g := t[..|t| - 1];
    assert t == g + [SEP] && t + [HASH] == g + [SEP] + [HASH];
    LevelsSnoc(g);
    LevelsJoined(g, [HASH]);
    SplitOne([HASH]);
  }

  /**
   * All trusted filters agree on a topic exactly when it does not end in the separator, has more
   * than 16 levels, or has a last level that reads as a wildcard.
   */
  lemma TopicAgreesIff(t: Text)
    ensures (forall f :: Trusted(f) ==> Fast(f, t) == Slow(f, t, SEP))
        <==> !EndsInSep(t, SEP) || |Levels(t, SEP)| > MAX_LEVELS || Wild(Last(Levels(t, SEP)))
  {
    if !EndsInSep(t, SEP) {
      forall f | Trusted(f) ensures Fast(f, t) == Slow(f, t, SEP) {
        TrustedAgrees(f, t);
      }
    } else if |Levels(t, SEP)| <= MAX_LEVELS {
      TrailingView(t);
      if Wild(Last(Levels(t, SEP))) {
        forall f | Trusted(f) ensures Fast(f, t) == Slow(f, t, SEP) {
          WildTopicAgrees(f, t);
        }
      } else {
        TrailingTopicDiffers(t);
      }
    }
  }

  /** The shortest such topic: filter "a" against topic "a/". */
  lemma TrailingSepTopicDiffers()
    ensures Slow([97], [97, SEP], SEP) && !Fast([97], [97, SEP])
  {
    var f, t: Text := [97], [97, SEP];
    assert TokenEnd(f, 0, SEP) == 1 && TokenEnd(t, 0, SEP) == 1;
    assert f[0..] == f && f[1..] == [] && t[0..1] == f && t[2..] == [];
    assert Levels(t, SEP) == [f] && Split(f, SEP) == [f];
    assert Piece(t, 0, 3) == t && Viewed(t) == [t];
    assert Patterns([f]) == [Lit(f)];
  }
}
