/**
 * Topic aliases as a compression of the outbound stream: what the sender leaves out, the
 * receiver's rule puts back.
 */
module MqttAlias {
  import opened Common
  import opened Parsing
  import opened MqttWire
  import opened MqttPackets
  import opened MqttRoundTrip
  import opened MqttCodec
  import opened MqttSession
  import Decimal

  /** The sender's table: aliases given out, the peer's maximum, and the next alias, a 16-bit counter. */
  datatype Table = Table(outbound: map<Bytes, nat>, max: nat, next: nat)

  function NewTable(max: nat): Table { Table(map[], max, 1) }

  function Tagged(p: Option<Properties>, alias: nat): Option<Properties> {
    Some(OrNone(p).(fields := OrNone(p).fields[TOPIC_ALIAS := Num(alias)]))
  }

  function Rewrite(p: Packet, topic: Bytes, props: Option<Properties>): Packet
    requires p.Publish?
  {
    Publish(p.dup, p.qos, p.retain, topic, p.id, p.payload, props)
  }

  predicate Assigns(a: Table, topic: Bytes) { a.max != 0 && topic !in a.outbound && a.next <= a.max }

  function Shorten(a: Table, p: Packet): Packet
    requires p.Publish?
  {
    if a.max == 0 then p
    else if p.topic in a.outbound then Rewrite(p, [], Tagged(p.properties, a.outbound[p.topic]))
    else if a.next <= a.max then Rewrite(p, p.topic, Tagged(p.properties, a.next))
    else p
  }

  function After(a: Table, p: Packet): Table
    requires p.Publish?
  {
    if Assigns(a, p.topic) then Table(a.outbound[p.topic := a.next], a.max, (a.next + 1) % U16_SPACE) else a
  }

  /** A delivery names its topic and carries no alias of its own. */
  predicate Delivery(p: Packet) {
    p.Publish? && p.topic != [] && (p.properties.Some? ==> TOPIC_ALIAS !in p.properties.value.fields)
  }

  predicate Deliveries(ps: seq<Packet>) { forall i :: 0 <= i < |ps| ==> Delivery(ps[i]) }

  function ShortenAll(a: Table, ps: seq<Packet>): (qs: seq<Packet>)
    requires Deliveries(ps)
    ensures |qs| == |ps| && forall i :: 0 <= i < |qs| ==> qs[i].Publish?
    decreases |ps|
  {
    if ps == [] then [] else [Shorten(a, ps[0])] + ShortenAll(After(a, ps[0]), ps[1..])
  }

  function AfterAll(a: Table, ps: seq<Packet>): Table
    requires Deliveries(ps)
    decreases |ps|
  {
    if ps == [] then a else AfterAll(After(a, ps[0]), ps[1..])
  }

  /** The receiver's rule along a stream of publishes. */
  function ResolveAll(inbound: map<nat, Bytes>, qs: seq<Packet>): seq<Packet>
    requires forall i :: 0 <= i < |qs| ==> qs[i].Publish?
    decreases |qs|
  {
    if qs == [] then [] else [Resolve(inbound, qs[0])] + ResolveAll(Learn(inbound, qs[0]), qs[1..])
  }

  // --- lossless ----------------------------------------------------------

  /** Aliases given out are between 1 and the maximum, and differ. */
  ghost predicate Sound(a: Table) {
    && (forall t :: t in a.outbound ==> 1 <= a.outbound[t] <= a.max)
    && (forall t, u :: t in a.outbound && u in a.outbound && a.outbound[t] == a.outbound[u] ==> t == u)
  }

  ghost predicate Below(a: Table) {
    1 <= a.next <= a.max + 1 && forall t :: t in a.outbound ==> a.outbound[t] < a.next
  }

  /** The receiver knows every alias the sender may use. */
  ghost predicate Known(a: Table, inbound: map<nat, Bytes>) {
    forall t :: t in a.outbound ==> a.outbound[t] in inbound && inbound[a.outbound[t]] == t && t != []
  }

  lemma AfterSound(a: Table, p: Packet)
    requires a.max < U16_SPACE - 1 && Sound(a) && Below(a) && p.Publish?
    ensures Sound(After(a, p)) && Below(After(a, p))
  {
  }

  lemma AfterKnown(a: Table, inbound: map<nat, Bytes>, p: Packet)
    requires Sound(a) && Below(a) && Known(a, inbound) && Delivery(p)
    ensures Known(After(a, p), Learn(inbound, Shorten(a, p)))
  {
  }

  /** The same delivery, up to the alias it may have been given on the way. */
  predicate Same(r: Packet, p: Packet)
    requires p.Publish?
  {
    && r.Publish? && Rewrite(r, r.topic, None) == Rewrite(p, p.topic, None)
    && OrNone(r.properties).users == OrNone(p.properties).users
    && OrNone(r.properties).fields - {TOPIC_ALIAS} == OrNone(p.properties).fields
  }

  lemma ResolveShortened(a: Table, inbound: map<nat, Bytes>, p: Packet)
    requires Known(a, inbound) && Delivery(p)
    ensures Same(Resolve(inbound, Shorten(a, p)), p)
  {
    var f := OrNone(p.properties).fields;
    assert f - {TOPIC_ALIAS} == f;
    assert forall n: nat :: f[TOPIC_ALIAS := Num(n)] - {TOPIC_ALIAS} == f;
  }

  lemma {:induction false} StreamLossless(a: Table, inbound: map<nat, Bytes>, ps: seq<Packet>)
    requires a.max < U16_SPACE - 1 && Sound(a) && Below(a) && Known(a, inbound) && Deliveries(ps)
    ensures |ResolveAll(inbound, ShortenAll(a, ps))| == |ps|
    ensures forall i :: 0 <= i < |ps| ==> Same(ResolveAll(inbound, ShortenAll(a, ps))[i], ps[i])
    decreases |ps|
  {
    if ps != [] {
      var qs := ShortenAll(a, ps);
      ResolveShortened(a, inbound, ps[0]);
      AfterSound(a, ps[0]);
      AfterKnown(a, inbound, ps[0]);
      StreamLossless(After(a, ps[0]), Learn(inbound, qs[0]), ps[1..]);
      assert qs[1..] == ShortenAll(After(a, ps[0]), ps[1..]);
    }
  }

  /** The receiver recovers every delivery, in order. */
  ghost predicate Lossless(max: nat, ps: seq<Packet>)
    requires Deliveries(ps)
  {
    var r := ResolveAll(map[], ShortenAll(NewTable(max), ps));
    |r| == |ps| && forall i :: 0 <= i < |ps| ==> Same(r[i], ps[i])
  }

  lemma AliasLossless(max: nat, ps: seq<Packet>)
    requires max <= 65534 && Deliveries(ps)
    ensures Lossless(max, ps)
  {
    StreamLossless(NewTable(max), map[], ps);
  }

  lemma {:induction false} AfterAllSound(a: Table, ps: seq<Packet>)
    requires a.max < U16_SPACE - 1 && Sound(a) && Below(a) && Deliveries(ps)
    ensures Sound(AfterAll(a, ps)) && AfterAll(a, ps).max == a.max
    decreases |ps|
  {
    if ps != [] {
      AfterSound(a, ps[0]);
      AfterAllSound(After(a, ps[0]), ps[1..]);
    }
  }

  // --- exactly up to 65534 -----------------------------------------------

  function Numbered(i: nat): Packet { Publish(false, AtMostOnce, false, Decimal.Render(i), None, [], None) }

  /** `n` deliveries to as many topics. */
  function Distinctly(n: nat): (ps: seq<Packet>)
    ensures |ps| == n && Deliveries(ps)
  {
    if n == 0 then [] else Distinctly(n - 1) + [Numbered(n - 1)]
  }

  lemma {:induction false} AfterAllSnoc(a: Table, ps: seq<Packet>, p: Packet)
    requires Deliveries(ps) && Delivery(p)
    ensures AfterAll(a, ps + [p]) == After(AfterAll(a, ps), p)
    decreases |ps|
  {
    if ps == [] {
      assert (ps + [p])[1..] == [];
    } else {
      assert (ps + [p])[1..] == ps[1..] + [p];
      AfterAllSnoc(After(a, ps[0]), ps[1..], p);
    }
  }

  /** Only the first `n` numbered topics have aliases. */
  ghost predicate OnlyBelow(a: Table, n: nat) {
    forall t :: t in a.outbound ==> exists i: nat :: i < n && t == Decimal.Render(i)
  }

  lemma AfterNumbered(a: Table, n: nat)
    requires OnlyBelow(a, n)
    ensures OnlyBelow(After(a, Numbered(n)), n + 1)
  {
    var b := After(a, Numbered(n));
    forall t | t in b.outbound ensures exists i: nat :: i < n + 1 && t == Decimal.Render(i) {
      if t in a.outbound {
        var i: nat :| i < n && t == Decimal.Render(i);
      } else {
        assert t == Decimal.Render(n);
      }
    }
  }

  lemma NewTopic(a: Table, n: nat)
    requires OnlyBelow(a, n)
    ensures Decimal.Render(n) !in a.outbound
  {
    if Decimal.Render(n) in a.outbound {
      var i: nat :| i < n && Decimal.Render(n) == Decimal.Render(i);
      Decimal.RenderInjective(n, i);
    }
  }

  /** `n` topics have been given aliases under the largest maximum; the first of them has alias 1. */
  ghost predicate Filled(a: Table, n: nat) {
    && a.max == 65535 && a.next == (n + 1) % U16_SPACE && OnlyBelow(a, n)
    && (n > 0 ==> Decimal.Render(0) in a.outbound && a.outbound[Decimal.Render(0)] == 1)
  }

  lemma CountsOn(n: nat)
    ensures ((n + 1) % U16_SPACE + 1) % U16_SPACE == (n + 2) % U16_SPACE
  {
  }

  lemma FilledNext(a: Table, n: nat)
    requires Filled(a, n)
    ensures Filled(After(a, Numbered(n)), n + 1)
  {
    NewTopic(a, n);
    AfterNumbered(a, n);
    CountsOn(n);
    if Decimal.Render(n) == Decimal.Render(0) {
      Decimal.RenderInjective(n, 0);
    }
  }

  lemma {:induction false} FullTable(n: nat)
    ensures Filled(AfterAll(NewTable(65535), Distinctly(n)), n)
  {
    if n > 0 {
      FullTable(n - 1);
      AfterAllSnoc(NewTable(65535), Distinctly(n - 1), Numbered(n - 1));
      FilledNext(AfterAll(NewTable(65535), Distinctly(n - 1)), n - 1);
    }
  }

  /** The counter wraps: the 65536th topic is given alias 0, which no receiver may be sent. */
  lemma CounterWraps()
    ensures !Sound(AfterAll(NewTable(65535), Distinctly(U16_SPACE)))
  {
    var n := U16_SPACE - 1;
    var a := AfterAll(NewTable(65535), Distinctly(n));
    FullTable(n);
    NewTopic(a, n);
    AfterAllSnoc(NewTable(65535), Distinctly(n), Numbered(n));
    var b := AfterAll(NewTable(65535), Distinctly(U16_SPACE));
    assert b.outbound[Decimal.Render(n)] == 0;
  }

  /** Aliases stay between 1 and the maximum, and distinct, on every stream exactly when the maximum is not 65535. */
  lemma SoundIff(max: nat)
    requires max < U16_SPACE
    ensures (forall ps :: Deliveries(ps) ==> Sound(AfterAll(NewTable(max), ps))) <==> max <= 65534
  {
    if max <= 65534 {
      forall ps | Deliveries(ps) ensures Sound(AfterAll(NewTable(max), ps)) {
        AfterAllSound(NewTable(max), ps);
      }
    } else {
      CounterWraps();
      assert Deliveries(Distinctly(U16_SPACE));
    }
  }

  function LearnAll(inbound: map<nat, Bytes>, qs: seq<Packet>): map<nat, Bytes>
    requires forall i :: 0 <= i < |qs| ==> qs[i].Publish?
    decreases |qs|
  {
    if qs == [] then inbound else LearnAll(Learn(inbound, qs[0]), qs[1..])
  }

  lemma {:induction false} ShortenAllSnoc(a: Table, ps: seq<Packet>, p: Packet)
    requires Deliveries(ps) && Delivery(p)
    ensures ShortenAll(a, ps + [p]) == ShortenAll(a, ps) + [Shorten(AfterAll(a, ps), p)]
    decreases |ps|
  {
    if ps == [] {
      assert (ps + [p])[1..] == [];
    } else {
      assert (ps + [p])[1..] == ps[1..] + [p];
      ShortenAllSnoc(After(a, ps[0]), ps[1..], p);
    }
  }

  lemma {:induction false} ResolveAllSnoc(inbound: map<nat, Bytes>, qs: seq<Packet>, q: Packet)
    requires (forall i :: 0 <= i < |qs| ==> qs[i].Publish?) && q.Publish?
    ensures ResolveAll(inbound, qs + [q]) == ResolveAll(inbound, qs) + [Resolve(LearnAll(inbound, qs), q)]
    ensures LearnAll(inbound, qs + [q]) == Learn(LearnAll(inbound, qs), q)
    decreases |qs|
  {
    if qs == [] {
      assert (qs + [q])[1..] == [];
    } else {
      assert (qs + [q])[1..] == qs[1..] + [q];
      ResolveAllSnoc(Learn(inbound, qs[0]), qs[1..], q);
    }
  }

  /** What the receiver knows after a stream, and what it makes of one more delivery. */
  function KnownAfter(a: Table, ps: seq<Packet>): map<nat, Bytes>
    requires Deliveries(ps)
  {
    LearnAll(map[], ShortenAll(a, ps))
  }

  lemma StreamSnoc(a: Table, ps: seq<Packet>, p: Packet)
    requires Deliveries(ps) && Delivery(p) && Deliveries(ps + [p])
    ensures var q := Shorten(AfterAll(a, ps), p);
      && q.Publish? && KnownAfter(a, ps + [p]) == Learn(KnownAfter(a, ps), q)
      && ResolveAll(map[], ShortenAll(a, ps + [p])) == ResolveAll(map[], ShortenAll(a, ps)) + [Resolve(KnownAfter(a, ps), q)]
  {
    ShortenAllSnoc(a, ps, p);
    ResolveAllSnoc(map[], ShortenAll(a, ps), Shorten(AfterAll(a, ps), p));
  }

  lemma RoundAgain(n: nat)
    requires n % U16_SPACE == 0
    ensures (n + 1) % U16_SPACE == 1
  {
  }

  /** Every time the counter has gone round, alias 1 is given out again. */
  lemma AliasReused(a: Table, n: nat, inbound: map<nat, Bytes>)
    requires n % U16_SPACE == 0 && Filled(a, n)
    ensures var q := Shorten(a, Numbered(n)); q.Publish? && 1 in Learn(inbound, q) && Learn(inbound, q)[1] == Decimal.Render(n)
  {
    RoundAgain(n);
    NewTopic(a, n);
  }

  lemma ReusedAfter(n: nat)
    requires n % U16_SPACE == 0
    ensures var known := KnownAfter(NewTable(65535), Distinctly(n + 1)); 1 in known && known[1] == Decimal.Render(n)
  {
    var t, ps := NewTable(65535), Distinctly(n);
    FullTable(n);
    StreamSnoc(t, ps, Numbered(n));
    AliasReused(AfterAll(t, ps), n, KnownAfter(t, ps));
  }

  /** The first topic then reaches the receiver as another one. */
  lemma FirstTopicLost(a: Table, n: nat, inbound: map<nat, Bytes>)
    requires n > 0 && Filled(a, n + 1) && 1 in inbound && inbound[1] == Decimal.Render(n)
    ensures Resolve(inbound, Shorten(a, Numbered(0))).topic == Decimal.Render(n) != Decimal.Render(0)
  {
    if Decimal.Render(n) == Decimal.Render(0) {
      Decimal.RenderInjective(n, 0);
    }
  }

  lemma LastLost(max: nat, ps: seq<Packet>, r: Packet)
    requires ps != [] && Deliveries(ps) && !Same(r, ps[|ps| - 1])
    requires var rs := ResolveAll(map[], ShortenAll(NewTable(max), ps)); rs != [] && rs[|rs| - 1] == r
    ensures !Lossless(max, ps)
  {
  }

  /** 65537 topics one after the other, and then the first again. */
  lemma RepeatLost() returns (ps: seq<Packet>)
    ensures |ps| == 65538 && Deliveries(ps) && !Lossless(65535, ps)
  {
    var n: nat :| n == U16_SPACE;
    var t, more := NewTable(65535), Distinctly(n + 1);
    ps := more + [Numbered(0)];
    FullTable(n + 1);
    ReusedAfter(n);
    StreamSnoc(t, more, Numbered(0));
    FirstTopicLost(AfterAll(t, more), n, KnownAfter(t, more));
    LastLost(65535, ps, Resolve(KnownAfter(t, more), Shorten(AfterAll(t, more), Numbered(0))));
  }

  /** Every stream of deliveries is recovered exactly when the maximum is not 65535. */
  lemma LosslessIff(max: nat)
    requires max < U16_SPACE
    ensures (forall ps :: Deliveries(ps) ==> Lossless(max, ps)) <==> max <= 65534
  {
    if max <= 65534 {
      forall ps | Deliveries(ps) ensures Lossless(max, ps) {
        AliasLossless(max, ps);
      }
    } else {
      var ps := RepeatLost();
    }
  }

  // --- end to end --------------------------------------------------------

  function EncodeAll(ps: seq<Packet>): Bytes {
    if ps == [] then [] else Encode(ps[0], V5) + EncodeAll(ps[1..])
  }

  predicate Publishes(ps: seq<Packet>) { forall i :: 0 <= i < |ps| ==> ps[i].Publish? }

  /** The publishes as a reader sees them. */
  function Normals(ps: seq<Packet>): (r: seq<Packet>)
    requires Publishes(ps)
    ensures |r| == |ps| && Publishes(r)
  {
    if ps == [] then [] else [Normal(ps[0], V5)] + Normals(ps[1..])
  }

  lemma ResolveNormal(inbound: map<nat, Bytes>, q: Packet)
    requires q.Publish?
    ensures Learn(inbound, Normal(q, V5)) == Learn(inbound, q)
    ensures Resolve(inbound, q).Publish? && Resolve(inbound, Normal(q, V5)) == Normal(Resolve(inbound, q), V5)
  {
  }

  lemma {:induction false} ResolveAllNormal(inbound: map<nat, Bytes>, qs: seq<Packet>)
    requires Publishes(qs)
    ensures Publishes(ResolveAll(inbound, qs))
    ensures ResolveAll(inbound, Normals(qs)) == Normals(ResolveAll(inbound, qs))
    decreases |qs|
  {
    if qs != [] {
      ResolveNormal(inbound, qs[0]);
      ResolveAllNormal(Learn(inbound, qs[0]), qs[1..]);
      assert Normals(qs)[1..] == Normals(qs[1..]);
      assert ResolveAll(inbound, qs)[1..] == ResolveAll(Learn(inbound, qs[0]), qs[1..]);
    }
  }

  lemma {:induction false} NormalsAt(ps: seq<Packet>, i: nat)
    requires Publishes(ps) && i < |ps|
    ensures Normals(ps)[i] == Normal(ps[i], V5)
    decreases |ps|
  {
    if i > 0 {
      NormalsAt(ps[1..], i - 1);
    }
  }

  /** A packet identifier is there exactly when the quality of service needs one. */
  predicate IdFits(p: Packet)
    requires p.Publish?
  {
    p.id.None? <==> p.qos.AtMostOnce?
  }

  lemma SameNormal(r: Packet, p: Packet)
    requires p.Publish? && IdFits(p) && Same(r, p)
    ensures Same(Normal(r, V5), p)
  {
  }

  predicate Sendable(p: Packet) { p.Publish? && Encodable(p, V5) }

  predicate Plain(c: Conn) { !c.closed && c.version.V5? }

  function Received(c: Conn, ps: seq<Packet>): Conn
    requires Publishes(ps)
    decreases |ps|
  {
    if ps == [] then c
    else Received(c.(inbound := Learn(c.inbound, ps[0]), handled := c.handled + [Resolve(c.inbound, ps[0])]), ps[1..])
  }

  lemma WrittenStep(c: Conn, p: Packet, rest: Bytes)
    requires Plain(c) && Sendable(p) && c.buf == Encode(p, V5) + rest
    ensures Drain(c) == Drain(Handle(c.(buf := rest), Normal(p, V5)))
  {
    RoundTrip(p, V5, rest);
    DrainOne(c, Normal(p, V5), |Encode(p, V5)|);
    assert c.buf[|Encode(p, V5)|..] == rest;
  }

  /** A connection that receives written publishes handles exactly those, and its buffer is empty again. */
  lemma {:induction false} DrainWritten(c: Conn, ps: seq<Packet>)
    requires Plain(c) && c.buf == EncodeAll(ps) && Publishes(ps) && forall i :: 0 <= i < |ps| ==> Sendable(ps[i])
    ensures Drain(c) == Received(c.(buf := []), Normals(ps))
    decreases |ps|
  {
    if ps == [] {
      DrainStop(c);
    } else {
      var p, rest := ps[0], EncodeAll(ps[1..]);
      WrittenStep(c, p, rest);
      DrainWritten(Handle(c.(buf := rest), Normal(p, V5)), ps[1..]);
      assert Normals(ps)[1..] == Normals(ps[1..]);
    }
  }

  lemma {:induction false} ReceivedHandled(c: Conn, ps: seq<Packet>)
    requires Publishes(ps)
    ensures Received(c, ps).handled == c.handled + ResolveAll(c.inbound, ps)
    decreases |ps|
  {
    if ps == [] {
      assert c.handled + [] == c.handled;
    } else {
      var d := c.(inbound := Learn(c.inbound, ps[0]), handled := c.handled + [Resolve(c.inbound, ps[0])]);
      ReceivedHandled(d, ps[1..]);
      assert c.handled + [Resolve(c.inbound, ps[0])] + ResolveAll(d.inbound, ps[1..]) ==
             c.handled + ([Resolve(c.inbound, ps[0])] + ResolveAll(d.inbound, ps[1..]));
    }
  }

  /**
   * Deliveries shortened by aliases, written to octets, cut into chunks in any way, received and
   * resolved: the receiver handles the same deliveries in the same order, and nothing else.
   */
  lemma EndToEnd(max: nat, ps: seq<Packet>, chunks: seq<Bytes>, c: Conn, i: nat)
    requires max <= 65534 && Deliveries(ps) && i < |ps| && IdFits(ps[i])
    requires var qs := ShortenAll(NewTable(max), ps);
      Flatten(chunks) == EncodeAll(qs) && forall k :: 0 <= k < |qs| ==> Sendable(qs[k])
    requires chunks != [] && c == NEW_CONN.(version := V5)
    ensures var r := FeedAll(c, chunks); !r.closed && r.buf == [] && |r.handled| == |ps| && Same(r.handled[i], ps[i])
  {
    var qs := ShortenAll(NewTable(max), ps);
    var rs := ResolveAll(map[], qs);
    ChunkingIrrelevant(c, chunks);
    assert c.buf + Flatten(chunks) == EncodeAll(qs);
    DrainWritten(c.(buf := EncodeAll(qs)), qs);
    ReceivedHandled(c, Normals(qs));
    ReceivedOpen(c, Normals(qs));
    ResolveAllNormal(map[], qs);
    AliasLossless(max, ps);
    NormalsAt(rs, i);
    SameNormal(rs[i], ps[i]);
    assert c.handled + Normals(rs) == Normals(rs);
  }

  lemma {:induction false} ReceivedOpen(c: Conn, ps: seq<Packet>)
    requires Publishes(ps)
    ensures Received(c, ps).closed == c.closed && Received(c, ps).buf == c.buf
    decreases |ps|
  {
    if ps != [] {
      ReceivedOpen(c.(inbound := Learn(c.inbound, ps[0]), handled := c.handled + [Resolve(c.inbound, ps[0])]), ps[1..]);
    }
  }

  // --- the sender's table ------------------------------------------------

  class AliasTable {
    var outbound: map<Bytes, nat>
    var max: nat
    var next: nat

    ghost function State(): Table
      reads this
    {
      Table(outbound, max, next)
    }

    constructor (max: nat)
      ensures State() == NewTable(max)
    {
      outbound, this.max, next := map[], max, 1;
    }

    method Apply(p: Packet) returns (q: Packet)
      requires p.Publish?
      modifies this
      ensures q == Shorten(old(State()), p) && State() == After(old(State()), p)
    {
      q := p;
      if max == 0 {
        return;
      }
      if p.topic in outbound {
        q := Rewrite(p, [], Tagged(p.properties, outbound[p.topic]));
      } else if next <= max {
        var alias := next;
        next := (next + 1) % U16_SPACE;
        outbound := outbound[p.topic := alias];
        q := Rewrite(p, p.topic, Tagged(p.properties, alias));
      }
    }
  }
}
