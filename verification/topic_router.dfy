/** The registry of subscribers and filters, and routing a topic through it. */
module TopicRouting {
  import opened Common
  import opened Glob
  import opened TopicMatch
  import opened TopicFast

  type Id = seq<byte>

  datatype Sub = Sub(id: Id, filter: Text)
  datatype Op = Subscribe(id: Id, filter: Text) | Unsubscribe(id: Id)

  // --- the registry on values --------------------------------------------

  function WithFilter(subs: seq<Sub>, id: Id, filter: Text): seq<Sub> {
    if subs == [] then [Sub(id, filter)]
    else if subs[0].id == id then [Sub(id, filter)] + subs[1..]
    else [subs[0]] + WithFilter(subs[1..], id, filter)
  }

  function Without(subs: seq<Sub>, id: Id): seq<Sub> {
    if subs == [] then []
    else if subs[0].id == id then Without(subs[1..], id) else [subs[0]] + Without(subs[1..], id)
  }

  function Apply(subs: seq<Sub>, op: Op): seq<Sub> {
    match op
    case Subscribe(id, filter) => WithFilter(subs, id, filter)
    case Unsubscribe(id) => Without(subs, id)
  }

  function Registry(ops: seq<Op>): seq<Sub> {
    if ops == [] then [] else Apply(Registry(ops[..|ops| - 1]), ops[|ops| - 1])
  }

  /** The filter an id holds according to the history alone: what its last operation said. */
  function Latest(ops: seq<Op>, id: Id): Option<Text> {
    if ops == [] then None
    else
      var last := ops[|ops| - 1];
      if last.id != id then Latest(ops[..|ops| - 1], id)
      else if last.Subscribe? then Some(last.filter) else None
  }

  /** Every id once; the filter an id holds. */
  ghost predicate OncePerId(subs: seq<Sub>) {
    forall i, j :: 0 <= i < j < |subs| ==> subs[i].id != subs[j].id
  }

  function FilterOf(subs: seq<Sub>, id: Id): Option<Text> {
    if subs == [] then None else if subs[0].id == id then Some(subs[0].filter) else FilterOf(subs[1..], id)
  }

  lemma {:induction false} FilterOfNone(subs: seq<Sub>, id: Id)
    ensures FilterOf(subs, id).None? <==> forall i :: 0 <= i < |subs| ==> subs[i].id != id
  {
    if subs != [] {
      FilterOfNone(subs[1..], id);
      assert forall i :: 0 < i < |subs| ==> subs[i] == subs[1..][i - 1];
    }
  }

  lemma {:induction false} WithFilterSets(subs: seq<Sub>, id: Id, filter: Text, other: Id)
    ensures FilterOf(WithFilter(subs, id, filter), other) == if other == id then Some(filter) else FilterOf(subs, other)
  {
    if subs != [] && subs[0].id != id {
      WithFilterSets(subs[1..], id, filter, other);
    }
  }

  lemma {:induction false} WithoutDrops(subs: seq<Sub>, id: Id, other: Id)
    ensures FilterOf(Without(subs, id), other) == if other == id then None else FilterOf(subs, other)
  {
    if subs != [] {
      WithoutDrops(subs[1..], id, other);
    }
  }

  /** The registry's ids, each once, read off as a recursive predicate. */
  ghost predicate Separate(subs: seq<Sub>) {
    subs == [] || (FilterOf(subs[1..], subs[0].id).None? && Separate(subs[1..]))
  }

  lemma {:induction false} SeparateIsOnce(subs: seq<Sub>)
    requires Separate(subs)
    ensures OncePerId(subs)
  {
    if subs != [] {
      SeparateIsOnce(subs[1..]);
      FilterOfNone(subs[1..], subs[0].id);
      assert forall i :: 0 < i < |subs| ==> subs[i] == subs[1..][i - 1];
    }
  }

  lemma {:induction false} ApplySeparate(subs: seq<Sub>, op: Op)
    requires Separate(subs)
    ensures Separate(Apply(subs, op))
    decreases |subs|
  {
    if subs != [] {
      match op
      case Subscribe(id, filter) =>
        if subs[0].id != id {
          ApplySeparate(subs[1..], op);
          WithFilterSets(subs[1..], id, filter, subs[0].id);
        }
      case Unsubscribe(id) =>
        ApplySeparate(subs[1..], op);
        WithoutDrops(subs[1..], id, subs[0].id);
    }
  }

  /** After any history the registry holds each id at most once, with the filter its last operation gave. */
  lemma {:induction false} RegistryIsLatest(ops: seq<Op>, id: Id)
    ensures Separate(Registry(ops))
    ensures FilterOf(Registry(ops), id) == Latest(ops, id)
  {
    if ops != [] {
      var before, last := ops[..|ops| - 1], ops[|ops| - 1];
      RegistryIsLatest(before, id);
      ApplySeparate(Registry(before), last);
      if last.Subscribe? {
        WithFilterSets(Registry(before), last.id, last.filter, id);
      } else {
        WithoutDrops(Registry(before), last.id, id);
      }
    }
  }

  // --- routing -----------------------------------------------------------

  /** Positions in the registry whose filter the hot path accepts, ascending. */
  function Hits(subs: seq<Sub>, topic: Text, n: nat): seq<nat>
    requires n <= |subs|
  {
    if n == 0 then [] else Hits(subs, topic, n - 1) + (if Fast(subs[n - 1].filter, topic) then [n - 1] else [])
  }

  lemma {:induction false} HitsExact(subs: seq<Sub>, topic: Text, n: nat)
    requires n <= |subs|
    ensures forall a, b :: 0 <= a < b < |Hits(subs, topic, n)| ==> Hits(subs, topic, n)[a] < Hits(subs, topic, n)[b]
    ensures forall k :: 0 <= k < |Hits(subs, topic, n)| ==> Hits(subs, topic, n)[k] < n
    ensures forall i :: 0 <= i < n ==> (Fast(subs[i].filter, topic) <==> i in Hits(subs, topic, n))
  {
    if n > 0 {
      HitsExact(subs, topic, n - 1);
    }
  }

  function Routed(subs: seq<Sub>, topic: Text, n: nat): seq<Id>
    requires n <= |subs|
  {
    if n == 0 then []
    else Routed(subs, topic, n - 1) + (if Fast(subs[n - 1].filter, topic) then [subs[n - 1].id] else [])
  }

  lemma {:induction false} RoutedAt(subs: seq<Sub>, topic: Text, n: nat, k: nat)
    requires n <= |subs|
    ensures |Routed(subs, topic, n)| == |Hits(subs, topic, n)|
    ensures k < |Hits(subs, topic, n)| ==>
      Hits(subs, topic, n)[k] < n && Routed(subs, topic, n)[k] == subs[Hits(subs, topic, n)[k]].id
  {
    if n > 0 {
      RoutedAt(subs, topic, n - 1, k);
    }
  }

  lemma RoutedOnce(subs: seq<Sub>, topic: Text)
    requires OncePerId(subs)
    ensures Distinct(Routed(subs, topic, |subs|))
  {
    var r := Routed(subs, topic, |subs|);
    HitsExact(subs, topic, |subs|);
    forall a, b | 0 <= a < b < |r| ensures r[a] != r[b] {
      RoutedAt(subs, topic, |subs|, a);
      RoutedAt(subs, topic, |subs|, b);
    }
  }

  lemma {:induction false} RoutedIff(subs: seq<Sub>, topic: Text, n: nat, id: Id)
    requires n <= |subs|
    ensures id in Routed(subs, topic, n) <==> exists i :: 0 <= i < n && subs[i].id == id && Fast(subs[i].filter, topic)
  {
    if n > 0 {
      RoutedIff(subs, topic, n - 1, id);
    }
  }

  lemma {:induction false} FilterOfAt(subs: seq<Sub>, i: nat)
    requires Separate(subs) && i < |subs|
    ensures FilterOf(subs, subs[i].id) == Some(subs[i].filter)
  {
    if i > 0 {
      FilterOfAt(subs[1..], i - 1);
      FilterOfNone(subs[1..], subs[0].id);
      assert subs[1..][i - 1] == subs[i];
    }
  }

  lemma FilterOfSome(subs: seq<Sub>, id: Id) returns (i: nat)
    requires Separate(subs) && FilterOf(subs, id).Some?
    ensures i < |subs| && subs[i] == Sub(id, FilterOf(subs, id).value)
  {
    FilterOfNone(subs, id);
    i :| 0 <= i < |subs| && subs[i].id == id;
    FilterOfAt(subs, i);
  }

  /**
   * Routing after any history of subscriptions: an id is selected exactly when the filter it last
   * subscribed with, and has not given up since, accepts the topic; and no id is selected twice.
   */
  lemma RouteExact(ops: seq<Op>, topic: Text, id: Id)
    ensures var subs := Registry(ops);
      && Distinct(Routed(subs, topic, |subs|))
      && (id in Routed(subs, topic, |subs|) <==> Latest(ops, id).Some? && Fast(Latest(ops, id).value, topic))
  {
    var subs := Registry(ops);
    RegistryIsLatest(ops, id);
    SeparateIsOnce(subs);
    RoutedOnce(subs, topic);
    RoutedIff(subs, topic, |subs|, id);
    if id in Routed(subs, topic, |subs|) {
      var i :| 0 <= i < |subs| && subs[i].id == id && Fast(subs[i].filter, topic);
      FilterOfAt(subs, i);
    }
    if Latest(ops, id).Some? {
      var i := FilterOfSome(subs, id);
    }
  }

  /** On plain filters and topics the selection is the declarative one: some split of the levels fits the filter. */
  lemma RouteMeansMatch(ops: seq<Op>, topic: Text, id: Id)
    requires !EndsInSep(topic, SEP)
    requires Latest(ops, id).Some? ==> Latest(ops, id).value != [] && !EndsInSep(Latest(ops, id).value, SEP)
    ensures id in Routed(Registry(ops), topic, |Registry(ops)|) <==>
      Latest(ops, id).Some? &&
      exists pieces :: Splits(Patterns(Split(Latest(ops, id).value, SEP)), Levels(topic, SEP), pieces)
  {
    RouteExact(ops, topic, id);
    if Latest(ops, id).Some? {
      FastIsSlow(Latest(ops, id).value, topic);
    }
  }

  // --- the router --------------------------------------------------------

  datatype Compiled = Compiled(id: Id, filter: CompiledFilter)

  /** The compiled entries of a registry. */
  ghost predicate Compiles(s: seq<Compiled>, subs: seq<Sub>) {
    |s| == |subs| && forall i :: 0 <= i < |s| ==> s[i].id == subs[i].id && s[i].filter == Compile(subs[i].filter)
  }

  lemma {:induction false} WithFilterAt(subs: seq<Sub>, id: Id, filter: Text, i: nat)
    requires i <= |subs| && (forall j :: 0 <= j < i ==> subs[j].id != id) && (i < |subs| ==> subs[i].id == id)
    ensures WithFilter(subs, id, filter) == if i < |subs| then subs[i := Sub(id, filter)] else subs + [Sub(id, filter)]
    decreases i
  {
    if i > 0 {
      WithFilterAt(subs[1..], id, filter, i - 1);
    }
  }

  lemma {:induction false} WithoutPrefix(subs: seq<Sub>, id: Id, i: nat)
    requires i < |subs|
    ensures Without(subs[..i + 1], id) == Without(subs[..i], id) + (if subs[i].id == id then [] else [subs[i]])
    decreases i
  {
    var a, b := subs[..i + 1], subs[..i];
    if i > 0 {
      WithoutPrefix(subs[1..], id, i - 1);
      assert a[1..] == subs[1..][..i] && b[1..] == subs[1..][..i - 1];
    } else {
      assert a == [subs[0]] && a[1..] == [] && b == [];
    }
  }

  class TopicRouter {
    var subs: seq<Compiled>
    ghost var held: seq<Sub>

    ghost predicate Valid()
      reads this
    {
      Compiles(subs, held)
    }

    constructor ()
      ensures Valid() && held == Registry([])
    {
      subs, held := [], [];
    }

    method Subscribe(id: Id, filter: Text)
      requires Valid()
      modifies this
      ensures Valid() && held == Apply(old(held), Op.Subscribe(id, filter))
    {
      var entry := Compiled(id, Compile(filter));
      var i := 0;
      while i < |subs| && subs[i].id != id
        invariant 0 <= i <= |subs| && forall j :: 0 <= j < i ==> held[j].id != id
      {
        i := i + 1;
      }
      WithFilterAt(held, id, filter, i);
      subs := if i < |subs| then subs[i := entry] else subs + [entry];
      held := WithFilter(held, id, filter);
    }

    method Unsubscribe(id: Id)
      requires Valid()
      modifies this
      ensures Valid() && held == Apply(old(held), Op.Unsubscribe(id))
    {
      var next: seq<Compiled> := [];
      for i := 0 to |subs|
        invariant subs == old(subs) && held == old(held) && Compiles(next, Without(held[..i], id))
      {
        WithoutPrefix(held, id, i);
        if subs[i].id != id {
          next := next + [subs[i]];
        }
      }
      assert held[..|subs|] == held;
      subs, held := next, Without(held, id);
    }

    /** The matching ids, in registry order. */
    method Route(topic: Text) returns (out: seq<Id>)
      requires Valid()
      ensures out == Routed(held, topic, |held|)
    {
      out := RouteInto(subs, topic, held);
    }

    method Snapshot() returns (s: seq<Compiled>)
      requires Valid()
      ensures Compiles(s, held)
    {
      s := subs;
    }
  }

  method RouteInto(s: seq<Compiled>, topic: Text, ghost subs: seq<Sub>) returns (out: seq<Id>)
    requires Compiles(s, subs)
    ensures out == Routed(subs, topic, |subs|)
  {
    var levels := SplitLevels(topic);
    out := [];
    for i := 0 to |s|
      invariant out == Routed(subs, topic, i)
    {
      var hit := MatchesLevels(s[i].filter, levels, subs[i].filter, topic);
      if hit {
        out := out + [s[i].id];
      }
    }
  }

  const U32: nat := 0x1_0000_0000

  /** The matching positions as 32-bit numbers. */
  function Indices(subs: seq<Sub>, topic: Text, n: nat): seq<nat>
    requires n <= |subs|
  {
    if n == 0 then []
    else Indices(subs, topic, n - 1) + (if Fast(subs[n - 1].filter, topic) then [(n - 1) % U32] else [])
  }

  /** The positions themselves as long as there are at most 2^32 subscribers. */
  lemma {:induction false} IndicesAreHits(subs: seq<Sub>, topic: Text, n: nat)
    requires n <= |subs| && n <= U32
    ensures Indices(subs, topic, n) == Hits(subs, topic, n)
  {
    if n > 0 {
      IndicesAreHits(subs, topic, n - 1);
    }
  }

  method RouteIndices(s: seq<Compiled>, topic: Text, ghost subs: seq<Sub>) returns (out: seq<nat>)
    requires Compiles(s, subs)
    ensures out == Indices(subs, topic, |s|)
  {
    var levels := SplitLevels(topic);
    out := [];
    for i := 0 to |s|
      invariant out == Indices(subs, topic, i)
    {
      var hit := MatchesLevels(s[i].filter, levels, subs[i].filter, topic);
      if hit {
        out := out + [i % U32];
      }
    }
  }

  method CountMatches(s: seq<Compiled>, topic: Text, ghost subs: seq<Sub>) returns (count: nat)
    requires Compiles(s, subs)
    ensures count == |Hits(subs, topic, |s|)|
  {
    var levels := SplitLevels(topic);
    count := 0;
    for i := 0 to |s|
      invariant count == |Hits(subs, topic, i)|
    {
      var hit := MatchesLevels(s[i].filter, levels, subs[i].filter, topic);
      if hit {
        count := count + 1;
      }
    }
  }
}
