/**
 * Topic filters against topics, octet by octet: the recursive matcher that scans both strings, the
 * matcher over a filter compiled once and a topic split once, and the level semantics of both.
 */
module TopicMatch {
  import opened Common
  import opened Glob

  type Text = seq<byte>

  const SEP: byte := 47
  const PLUS: byte := 43
  const HASH: byte := 35

  // --- levels ------------------------------------------------------------

  /** Where the level that starts at `i` ends: the next separator, or the end. */
  function TokenEnd(s: Text, i: nat, sep: byte): (p: nat)
    requires i <= |s|
    ensures i <= p <= |s| && (p < |s| ==> s[p] == sep)
    decreases |s| - i
  {
    if i == |s| || s[i] == sep then i else TokenEnd(s, i + 1, sep)
  }

  lemma {:induction false} NoSepBefore(s: Text, i: nat, sep: byte, k: nat)
    requires i <= |s| && i <= k < TokenEnd(s, i, sep)
    ensures s[k] != sep
    decreases |s| - i
  {
    if i < k {
      NoSepBefore(s, i + 1, sep, k);
    }
  }

  lemma {:induction false} TokenEndAt(s: Text, i: nat, p: nat, sep: byte)
    requires i <= p <= |s| && (forall j :: i <= j < p ==> s[j] != sep) && (p < |s| ==> s[p] == sep)
    ensures TokenEnd(s, i, sep) == p
    decreases p - i
  {
    if i < p {
      TokenEndAt(s, i + 1, p, sep);
    }
  }

  function NextLevel(s: Text, i: nat, sep: byte): (Text, nat)
    requires i <= |s|
  {
    var p := TokenEnd(s, i, sep);
    if p < |s| then (s[i..p], p + 1) else (s[i..], |s|)
  }

  /** The levels a scan visits: an empty level after a final separator is not one of them. */
  function Levels(s: Text, sep: byte): seq<Text>
    decreases |s|
  {
    if s == [] then []
    else
      var (tok, next) := NextLevel(s, 0, sep);
      [tok] + Levels(s[next..], sep)
  }

  /** The source language's `split`: a final separator leaves a final empty level, and "" is one empty level. */
  function Split(s: Text, sep: byte): (r: seq<Text>)
    ensures r != []
    decreases |s|
  {
    var p := TokenEnd(s, 0, sep);
    if p == |s| then [s] else [s[..p]] + Split(s[p + 1..], sep)
  }

  predicate EndsInSep(s: Text, sep: byte) { s != [] && s[|s| - 1] == sep }

  /** An empty level after a final separator, and in an empty text. */
  function Trailing(s: Text, sep: byte): seq<Text> { if s == [] || EndsInSep(s, sep) then [[]] else [] }

  lemma TrailingCut(s: Text, sep: byte, p: nat)
    requires p == TokenEnd(s, 0, sep) < |s|
    ensures Trailing(s[p + 1..], sep) == Trailing(s, sep)
  {
    var rest := s[p + 1..];
    if rest != [] {
      assert rest[|rest| - 1] == s[|s| - 1];
    }
  }

  lemma OneLevel(s: Text, sep: byte)
    requires s != [] && TokenEnd(s, 0, sep) == |s|
    ensures Split(s, sep) == [s] && Levels(s, sep) == [s] && Trailing(s, sep) == []
  {
    NoSepBefore(s, 0, sep, |s| - 1);
    assert s[0..] == s && s[|s|..] == [];
  }

  lemma FirstLevel(s: Text, sep: byte, p: nat)
    requires p == TokenEnd(s, 0, sep) < |s|
    ensures Split(s, sep) == [s[..p]] + Split(s[p + 1..], sep) && Levels(s, sep) == [s[..p]] + Levels(s[p + 1..], sep)
  {
    assert s[0..p] == s[..p];
  }

  /** The two ways of cutting differ by one empty level, on exactly the texts that are empty or end in the separator. */
  lemma {:induction false} SplitVsLevels(s: Text, sep: byte)
    ensures Split(s, sep) == Levels(s, sep) + Trailing(s, sep)
    decreases |s|
  {
    var p := TokenEnd(s, 0, sep);
    if s == [] {
    } else if p == |s| {
      OneLevel(s, sep);
    } else {
      FirstLevel(s, sep, p);
      TrailingCut(s, sep, p);
      SplitVsLevels(s[p + 1..], sep);
      Regroup([s[..p]], Levels(s[p + 1..], sep), Trailing(s, sep));
    }
  }

  function Pattern(level: Text): Pat<Text> {
    if level == [PLUS] then One else if level == [HASH] then Any else Lit(level)
  }

  function Patterns(levels: seq<Text>): (ps: seq<Pat<Text>>)
    ensures |ps| == |levels|
  {
    seq(|levels|, i requires 0 <= i < |levels| => Pattern(levels[i]))
  }

  lemma PatternsCons(level: Text, rest: seq<Text>)
    ensures Patterns([level] + rest)[0] == Pattern(level) && Patterns([level] + rest)[1..] == Patterns(rest)
  {
  }

  // --- the scanning matcher ----------------------------------------------

  /** What the recursive matcher computes. */
  function Slow(f: Text, t: Text, sep: byte): bool
    decreases |f|, |t|, 0
  {
    if f == [] then t == []
    else
      var (ftok, fnext) := NextLevel(f, 0, sep);
      if ftok == [HASH] then fnext >= |f| || SlowHash(f[fnext..], t, sep)
      else if t == [] then false
      else
        var (ttok, tnext) := NextLevel(t, 0, sep);
        (ftok == [PLUS] || ftok == ttok) && Slow(f[fnext..], t[tnext..], sep)
  }

  /** The rest of the filter tried here and after each separator. */
  function SlowHash(f: Text, t: Text, sep: byte): bool
    decreases |f|, |t|, 1
  {
    Slow(f, t, sep) ||
    var p := TokenEnd(t, 0, sep);
    p < |t| && SlowHash(f, t[p + 1..], sep)
  }

  /** The recursive matcher, with its loop over the places a `#` may end. */
  method MatchLevels(f: Text, t: Text, sep: byte) returns (r: bool)
    ensures r == Slow(f, t, sep)
    decreases |f|
  {
    if f == [] {
      return t == [];
    }
    var (ftok, fnext) := NextLevel(f, 0, sep);
    if ftok == [HASH] {
      if fnext >= |f| {
        return true;
      }
      var j := 0;
      assert t[0..] == t;
      while true
        invariant 0 <= j <= |t|
        invariant SlowHash(f[fnext..], t, sep) == SlowHash(f[fnext..], t[j..], sep)
        decreases |t| - j
      {
        r := MatchLevels(f[fnext..], t[j..], sep);
        if r {
          return;
        }
        var p := ConsumeLevel(t, j, sep);
        if p.None? {
          return false;
        }
        assert t[j..][p.value - j..] == t[p.value..];
        j := p.value;
      }
    }
    if t == [] {
      return false;
    }
    var (ttok, tnext) := NextLevel(t, 0, sep);
    if ftok == [PLUS] || ftok == ttok {
      r := MatchLevels(f[fnext..], t[tnext..], sep);
    } else {
      r := false;
    }
  }

  /** The start of the level after the one at `i`, if a separator follows it. */
  method ConsumeLevel(t: Text, i: nat, sep: byte) returns (r: Option<nat>)
    requires i <= |t|
    ensures var p := TokenEnd(t[i..], 0, sep); r == if p < |t| - i then Some(i + p + 1) else None
  {
    var p := i;
    ghost var u := t[i..];
    while p < |t| && t[p] != sep
      invariant i <= p <= |t|
      invariant TokenEnd(u, p - i, sep) == TokenEnd(u, 0, sep)
    {
      assert u[p - i] == t[p];
      p := p + 1;
    }
    assert p < |t| ==> u[p - i] == t[p];
    r := if p < |t| then Some(p + 1) else None;
  }

  lemma LevelsStep(s: Text, sep: byte)
    requires s != []
    ensures var (tok, next) := NextLevel(s, 0, sep); Levels(s, sep) == [tok] + Levels(s[next..], sep) && Levels(s, sep)[1..] == Levels(s[next..], sep)
  {
  }

  /** A `#` tried at every level start means any number of levels. */
  lemma {:induction false} SlowHashIsAny(f: Text, t: Text, sep: byte)
    requires f != []
    ensures SlowHash(f, t, sep) <==> SomeSuffix(Patterns(Levels(f, sep)), Levels(t, sep))
    decreases |f|, |t|, 1
  {
    var pat, lv := Patterns(Levels(f, sep)), Levels(t, sep);
    SlowIsGlob(f, t, sep);
    SuffixStep(pat, lv);
    var p := TokenEnd(t, 0, sep);
    if p < |t| {
      SlowHashIsAny(f, t[p + 1..], sep);
      LevelsStep(t, sep);
    } else if t != [] {
      LevelsStep(t, sep);
      assert t[|t|..] == [] && lv[1..] == [];
      SuffixStep(pat, lv[1..]);
      if Matches(pat, []) {
        EmptyMatchesAll(pat, lv);
      }
    }
  }

  /** The scanning matcher implements the level semantics, on every filter and every topic. */
  lemma {:induction false} SlowIsGlob(f: Text, t: Text, sep: byte)
    ensures Slow(f, t, sep) <==> Matches(Patterns(Levels(f, sep)), Levels(t, sep))
    decreases |f|, |t|, 0
  {
    if f != [] {
      var (ftok, fnext) := NextLevel(f, 0, sep);
      var rest, lv := f[fnext..], Levels(t, sep);
      LevelsStep(f, sep);
      PatternsCons(ftok, Levels(rest, sep));
      var pat := Patterns(Levels(f, sep));
      if ftok == [HASH] {
        if fnext >= |f| {
          assert lv[|lv|..] == [] && Matches(pat[1..], lv[|lv|..]);
        } else {
          SlowHashIsAny(rest, t, sep);
        }
      } else if t != [] {
        var (ttok, tnext) := NextLevel(t, 0, sep);
        LevelsStep(t, sep);
        SlowIsGlob(rest, t[tnext..], sep);
      }
    }
  }
}
