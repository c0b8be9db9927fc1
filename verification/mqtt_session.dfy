/**
 * One MQTT connection: octets arrive in chunks, complete packets are taken off the buffer and
 * handled one by one, and topic aliases are resolved before anyone else sees a packet.
 */
module MqttSession {
  import opened Common
  import opened Parsing
  import opened MqttWire
  import opened MqttPackets
  import opened MqttRoundTrip

  /** The buffer lives as long as the connection is open; `handled` is everything passed on so far. */
  datatype Conn = Conn(buf: Bytes, version: Version, inbound: map<nat, Bytes>, outboundMax: nat, closed: bool,
                       handled: seq<Packet>)

  const NEW_CONN := Conn([], V311, map[], 0, false, [])

  function NumberOf(p: Option<Properties>, id: byte): Option<nat> {
    if p.Some? && id in p.value.fields && p.value.fields[id].Num? then Some(p.value.fields[id].n) else None
  }

  // --- topic aliases, inbound --------------------------------------------

  /** An empty topic is looked up, any other is remembered under the alias. */
  function Learn(inbound: map<nat, Bytes>, p: Packet): map<nat, Bytes>
    requires p.Publish?
  {
    var alias := NumberOf(p.properties, TOPIC_ALIAS);
    if alias.Some? && p.topic != [] then inbound[alias.value := p.topic] else inbound
  }

  function Resolve(inbound: map<nat, Bytes>, p: Packet): Packet
    requires p.Publish?
  {
    var alias := NumberOf(p.properties, TOPIC_ALIAS);
    if alias.Some? && p.topic == [] && alias.value in inbound then p.(topic := inbound[alias.value]) else p
  }

  // --- handling ----------------------------------------------------------

  predicate AsksAuth(p: Packet) {
    p.Connect? && p.protocol.V5? && p.properties.Some? && AUTHENTICATION_METHOD in p.properties.value.fields
  }

  predicate Closes(p: Packet) { p.Disconnect? || p.Auth? || AsksAuth(p) }

  function Handle(c: Conn, p: Packet): Conn {
    var d :=
      match p
      case Connect(v, _, _, _, _, _, _, props) =>
        var max := NumberOf(props, TOPIC_ALIAS_MAXIMUM);
        c.(version := v,
           outboundMax := if v.V5? && !AsksAuth(p) then (if max.Some? then max.value else 0) else c.outboundMax,
           handled := c.handled + [p])
      case Publish(_, _, _, _, _, _, _) =>
        c.(inbound := Learn(c.inbound, p), handled := c.handled + [Resolve(c.inbound, p)])
      case _ => c.(handled := c.handled + [p]);
    if Closes(p) then Shut(d) else d
  }

  /** Returning from the connection's task drops its buffer. */
  function Shut(c: Conn): Conn { c.(closed := true, buf := []) }

  lemma FrameSize(s: Bytes)
    ensures Frame(s).Framed? ==> 2 <= Frame(s).total <= |s|
  {
  }

  /** Take complete packets off the buffer until it asks for more or the connection closes. */
  function Drain(c: Conn): Conn
    decreases |c.buf|
  {
    if c.closed then c
    else
      match Decode(c.buf, c.version)
      case More => c
      case Err(_) => Shut(c)
      case One(p, n) =>
        FrameSize(c.buf);
        Drain(Handle(c.(buf := c.buf[n..]), p))
  }

  function Feed(c: Conn, chunk: Bytes): Conn {
    if c.closed then c else Drain(c.(buf := c.buf + chunk))
  }

  function FeedAll(c: Conn, chunks: seq<Bytes>): Conn
    decreases |chunks|
  {
    if chunks == [] then c else FeedAll(Feed(c, chunks[0]), chunks[1..])
  }

  function Flatten(chunks: seq<Bytes>): Bytes {
    if chunks == [] then [] else chunks[0] + Flatten(chunks[1..])
  }

  // --- chunking does not matter ------------------------------------------

  lemma HandleBuffer(c: Conn, p: Packet, b: Bytes)
    ensures Closes(p) ==> Handle(c.(buf := b), p) == Handle(c, p)
    ensures !Closes(p) ==> Handle(c.(buf := b), p) == Handle(c, p).(buf := b)
    ensures !Closes(p) ==> Handle(c, p).buf == c.buf && Handle(c, p).closed == c.closed
    ensures Closes(p) ==> Handle(c, p).closed && Handle(c, p).buf == []
  {
  }

  lemma DrainOne(c: Conn, p: Packet, n: nat)
    requires !c.closed && Decode(c.buf, c.version) == One(p, n)
    ensures n <= |c.buf| && Drain(c) == Drain(Handle(c.(buf := c.buf[n..]), p)) && n > 0
  {
    FrameSize(c.buf);
  }

  lemma DrainStop(c: Conn)
    requires c.closed || Decode(c.buf, c.version).More?
    ensures Drain(c) == c
  {
  }

  lemma DrainErr(c: Conn)
    requires !c.closed && Decode(c.buf, c.version).Err?
    ensures Drain(c) == Shut(c)
  {
  }

  /** Draining a longer buffer is draining the shorter one and then receiving the rest. */
  lemma {:induction false} DrainAppend(c: Conn, x: Bytes)
    requires !c.closed
    ensures Drain(c.(buf := c.buf + x)) == Feed(Drain(c), x)
    decreases |c.buf|
  {
    var d := Decode(c.buf, c.version);
    if d.More? {
      DrainStop(c);
    } else {
      DecodeStable(c.buf, c.version, x);
      if d.Err? {
        DrainErr(c);
        DrainErr(c.(buf := c.buf + x));
      } else {
        DrainOne(c, d.packet, d.total);
        DrainOne(c.(buf := c.buf + x), d.packet, d.total);
        AppendStep(c, d.packet, d.total, x);
      }
    }
  }

  lemma {:induction false} AppendStep(c: Conn, p: Packet, n: nat, x: Bytes)
    requires !c.closed && 0 < n <= |c.buf|
    ensures Drain(Handle(c.(buf := (c.buf + x)[n..]), p)) == Feed(Drain(Handle(c.(buf := c.buf[n..]), p)), x)
    decreases |c.buf|, 0
  {
    var rest := c.buf[n..];
    var h := Handle(c.(buf := rest), p);
    assert (c.buf + x)[n..] == rest + x;
    HandleBuffer(c, p, rest);
    HandleBuffer(c, p, rest + x);
    if Closes(p) {
      DrainStop(h);
    } else {
      assert h.buf == rest;
      DrainAppend(h, x);
      assert Handle(c.(buf := rest + x), p) == h.(buf := h.buf + x);
    }
  }

  lemma FeedTwice(c: Conn, a: Bytes, b: Bytes)
    ensures Feed(Feed(c, a), b) == Feed(c, a + b)
  {
    if !c.closed {
      DrainAppend(c.(buf := c.buf + a), b);
      Regroup(c.buf, a, b);
    }
  }

  lemma FeedStep(c: Conn, chunks: seq<Bytes>)
    requires chunks != []
    ensures FeedAll(c, chunks) == FeedAll(Feed(c, chunks[0]), chunks[1..])
    ensures Flatten(chunks) == chunks[0] + Flatten(chunks[1..])
  {
  }

  lemma FeedOne(c: Conn, a: Bytes)
    ensures FeedAll(c, [a]) == Feed(c, a) && Flatten([a]) == a
  {
    FeedStep(c, [a]);
    assert [a][1..] == [];
  }

  /**
   * However the stream is cut, the packets handled, the version, the aliases, what is left in the
   * buffer and whether the connection closes are those of receiving it at once.
   */
  lemma {:induction false} ChunkingIrrelevant(c: Conn, chunks: seq<Bytes>)
    requires chunks != []
    ensures FeedAll(c, chunks) == Feed(c, Flatten(chunks))
    decreases |chunks|
  {
    if |chunks| == 1 {
      assert chunks == [chunks[0]];
      FeedOne(c, chunks[0]);
    } else {
      FeedStep(c, chunks);
      ChunkingIrrelevant(Feed(c, chunks[0]), chunks[1..]);
      FeedTwice(c, chunks[0], Flatten(chunks[1..]));
    }
  }

  /** On a new connection, two ways of cutting the same stream cannot be told apart. */
  lemma SameStreamSameState(a: seq<Bytes>, b: seq<Bytes>)
    requires Flatten(a) == Flatten(b)
    ensures FeedAll(NEW_CONN, a) == FeedAll(NEW_CONN, b)
  {
    FromNew(a);
    FromNew(b);
  }

  lemma FromNew(a: seq<Bytes>)
    ensures FeedAll(NEW_CONN, a) == Feed(NEW_CONN, Flatten(a))
  {
    if a == [] {
      assert NEW_CONN.buf + [] == [];
      DrainStop(NEW_CONN);
    } else {
      ChunkingIrrelevant(NEW_CONN, a);
    }
  }

  // --- the connection ----------------------------------------------------

  class Connection {
    var buf: Bytes
    var version: Version
    var inbound: map<nat, Bytes>
    var outboundMax: nat
    var closed: bool
    var handled: seq<Packet>

    ghost function State(): Conn
      reads this
    {
      Conn(buf, version, inbound, outboundMax, closed, handled)
    }

    constructor ()
      ensures State() == NEW_CONN
    {
      buf, version, inbound, outboundMax, closed, handled := [], V311, map[], 0, false, [];
    }

    method HandlePacket(p: Packet)
      modifies this
      ensures State() == Handle(old(State()), p)
    {
      var resolved := p;
      match p {
        case Connect(v, _, _, _, _, _, _, props) =>
          version := v;
          if v.V5? && !AsksAuth(p) {
            var max := NumberOf(props, TOPIC_ALIAS_MAXIMUM);
            outboundMax := if max.Some? then max.value else 0;
          }
        case Publish(_, _, _, _, _, _, _) =>
          var alias := NumberOf(p.properties, TOPIC_ALIAS);
          if alias.Some? {
            if p.topic == [] {
              if alias.value in inbound {
                resolved := p.(topic := inbound[alias.value]);
              }
            } else {
              inbound := inbound[alias.value := p.topic];
            }
          }
        case _ =>
      }
      handled := handled + [resolved];
      if Closes(p) {
        closed, buf := true, [];
      }
    }

    /** Append the chunk and take every complete packet off the buffer. */
    method Receive(chunk: Bytes)
      modifies this
      ensures State() == Feed(old(State()), chunk)
    {
      if closed {
        return;
      }
      buf := buf + chunk;
      while !closed
        invariant Drain(State()) == Feed(old(State()), chunk)
        decreases !closed, |buf|
      {
        ghost var before := State();
        var d := Decode(buf, version);
        match d {
          case More =>
            DrainStop(before);
            return;
          case Err(_) =>
            DrainErr(before);
            closed, buf := true, [];
            return;
          case One(p, n) =>
            DrainOne(before, p, n);
            buf := buf[n..];
            HandleBuffer(State(), p, buf);
            HandlePacket(p);
        }
      }
      DrainStop(State());
    }
  }
}
