/** What is written is what is read: for every packet of both versions, with anything behind it. */
module MqttRoundTrip {
  import opened Common
  import opened Parsing
  import opened MqttWire
  import opened MqttPackets
  import Utf8

  // --- frames ------------------------------------------------------------

  lemma FrameBack(first: byte, body: Bytes, t: Bytes)
    requires |body| <= VARINT_MAX
    ensures Frame(PutFrame(first, body) + t) == Framed(first, body, |PutFrame(first, body)|)
  {
    var s := PutFrame(first, body) + t;
    Regroup([first], Prefixed(body), t);
    assert s[1..] == Prefixed(body) + t;
    LengthBack(body, t);
    assert (body + t)[..|body|] == body;
  }

  /** Octets arriving behind a frame, or behind a broken header, change nothing. */
  lemma FrameStable(s: Bytes, x: Bytes)
    requires !Frame(s).NeedMore?
    ensures Frame(s + x) == Frame(s)
  {
    VarStable(s[1..], 0, x);
    assert (s + x)[1..] == s[1..] + x;
    if Frame(s).Framed? {
      var r := ReadVar(s[1..]);
      assert (r.rest + x)[..r.value] == r.rest[..r.value];
    }
  }

  /** A strict prefix of a frame asks for more. */
  lemma FrameCut(s: Bytes, k: nat)
    requires Frame(s).Framed? && k < Frame(s).total
    ensures k <= |s| && Frame(s[..k]).NeedMore?
  {
    if k > 0 {
      var digits, r := s[1..], ReadVar(s[1..]);
      var used, cut := |digits| - |r.rest|, s[..k][1..];
      assert cut == digits[..k - 1];
      if k - 1 < used {
        VarCut(digits, 0, k - 1);
      } else {
        VarShort(digits, 0, k - 1);
      }
    }
  }

  /** Cut behind its digits, an integer is read as before. */
  lemma {:induction false} VarShort(s: Bytes, k: nat, n: nat)
    requires k < 4 && VarFrom(s, k).Ok? && |s| - |VarFrom(s, k).rest| <= n <= |s|
    ensures VarFrom(s[..n], k).Ok?
    ensures VarFrom(s[..n], k).value == VarFrom(s, k).value
    ensures |VarFrom(s[..n], k).rest| == n - (|s| - |VarFrom(s, k).rest|)
    decreases 4 - k
  {
    if s[0] >= 128 && k < 3 {
      assert s[..n][1..] == s[1..][..n - 1];
      VarShort(s[1..], k + 1, n - 1);
    }
  }

  /** Once a packet or an error is seen, it stays the answer whatever arrives behind. */
  lemma DecodeStable(s: Bytes, v: Version, x: Bytes)
    requires !Decode(s, v).More?
    ensures Decode(s + x, v) == Decode(s, v)
  {
    FrameStable(s, x);
  }

  /** Every strict prefix of a packet asks for more. */
  lemma StrictPrefixNeedsMore(s: Bytes, v: Version, k: nat)
    requires Decode(s, v).One? && k < Decode(s, v).total
    ensures k <= |s| && Decode(s[..k], v).More?
  {
    FrameCut(s, k);
  }

  // --- normal form -------------------------------------------------------

  function NormalProps(v: Version, p: Option<Properties>): Option<Properties> {
    if v.V5? then Some(OrNone(p)) else None
  }

  function NormalWill(v: Version, w: Option<Will>): Option<Will> {
    if w.None? then None else Some(w.value.(properties := NormalProps(v, w.value.properties)))
  }

  function NormalTopic(v: Version, t: SubscribeTopic): SubscribeTopic {
    if v.V5? then t else SubscribeTopic(t.filter, t.qos, false, false, SendAtSubscribe)
  }

  function NormalTopics(v: Version, ts: seq<SubscribeTopic>): seq<SubscribeTopic> {
    if ts == [] then [] else [NormalTopic(v, ts[0])] + NormalTopics(v, ts[1..])
  }

  /** What the reader makes of a written packet: fields the version does not carry are gone, defaults are filled in. */
  function Normal(p: Packet, v: Version): Packet {
    match p
    case Connect(w, id, keep, clean, will, user, pass, props) =>
      Connect(w, id, keep, clean, NormalWill(w, will), user, pass, NormalProps(w, props))
    case ConnAck(session, code, props) => ConnAck(session, code, NormalProps(v, props))
    case Publish(dup, q, retain, topic, id, payload, props) =>
      Publish(dup, q, retain, topic,
              if q.AtMostOnce? then None else Some(if id.Some? then id.value else 0), payload, NormalProps(v, props))
    case Ack(k, n, reason, props) => if v.V5? then Ack(k, n, reason, Worth(props)) else Ack(k, n, 0, None)
    case Subscribe(n, ts, props) => Subscribe(n, NormalTopics(v, ts), NormalProps(v, props))
    case SubAck(n, codes, rs, props) =>
      if v.V5? then
        var reasons := if rs.Some? then rs.value else Reasons(codes);
        SubAck(n, Codes(reasons), Some(reasons), NormalProps(v, props))
      else SubAck(n, codes, None, None)
    case Unsubscribe(n, fs, props) => Unsubscribe(n, fs, NormalProps(v, props))
    case UnsubAck(n, rs, props) =>
      if v.V5? then UnsubAck(n, Some(if rs.Some? then rs.value else []), NormalProps(v, props)) else UnsubAck(n, None, None)
    case PingReq => PingReq
    case PingResp => PingResp
    case Disconnect(reason, props) => if v.V5? then Disconnect(reason, Worth(props)) else Disconnect(0, None)
    case Auth(reason, props) => Auth(reason, Worth(props))
  }

  // --- what can be written -----------------------------------------------

  predicate Fit(v: Version, p: Option<Properties>) { v.V5? && p.Some? ==> PropsFit(p.value) }

  predicate ReasonsOk(rs: seq<byte>) { forall i :: 0 <= i < |rs| ==> IsReason(rs[i]) }

  predicate WillOk(v: Version, w: Option<Will>) {
    w.Some? ==> IsStr(w.value.topic) && |w.value.payload| < U16_SPACE && Fit(v, w.value.properties)
  }

  /** The widths and encodings the format has, and the two things a reader refuses: no filter, and no topic in 3.1.1. */
  predicate Fields(p: Packet, v: Version) {
    match p
    case Connect(w, id, keep, _, will, user, pass, props) =>
      && keep < U16_SPACE && IsStr(id) && Fit(w, props) && WillOk(w, will)
      && (user.Some? ==> IsStr(user.value)) && (pass.Some? ==> |pass.value| < U16_SPACE)
    case ConnAck(_, _, props) => Fit(v, props)
    case Publish(_, _, _, topic, id, _, props) =>
      IsStr(topic) && (v.V311? ==> topic != []) && (id.Some? ==> id.value < U16_SPACE) && Fit(v, props)
    case Ack(_, n, reason, props) => n < U16_SPACE && IsReason(reason) && Fit(v, props)
    case Subscribe(n, ts, props) =>
      n < U16_SPACE && ts != [] && Fit(v, props) && forall i :: 0 <= i < |ts| ==> IsStr(ts[i].filter)
    case SubAck(n, _, rs, props) => n < U16_SPACE && Fit(v, props) && (rs.Some? ==> ReasonsOk(rs.value))
    case Unsubscribe(n, fs, props) => n < U16_SPACE && Fit(v, props) && forall i :: 0 <= i < |fs| ==> IsStr(fs[i])
    case UnsubAck(n, rs, props) => n < U16_SPACE && Fit(v, props) && (rs.Some? ==> ReasonsOk(rs.value))
    case PingReq => true
    case PingResp => true
    case Disconnect(reason, props) => IsReason(reason) && Fit(v, props)
    case Auth(reason, props) => IsReason(reason) && Fit(V5, props)
  }

  predicate Encodable(p: Packet, v: Version) { Fields(p, v) && |BodyOf(p, v)| <= VARINT_MAX }

  // --- rows --------------------------------------------------------------

  /** A row that ends a body. */
  lemma RowEnds(ts: seq<Type>, cs: seq<Cell>)
    requires RowOk(ts, cs)
    ensures ReadRow(ts, PutRow(ts, cs)) == Ok(cs, [])
  {
    RowBack(ts, cs, []);
    assert PutRow(ts, cs) + [] == PutRow(ts, cs);
  }

  lemma PropCellOk(v: Version, p: Option<Properties>)
    requires Fit(v, p)
    ensures RowOk(PropTypes(v), PropCells(v, p))
  {
    EmptyFits();
  }

  lemma EmptyFits()
    ensures PropsFit(NO_PROPERTIES)
  {
    NoItems(1);
  }

  lemma {:induction false} NoItems(id: byte)
    ensures ItemsFrom(NO_PROPERTIES, id) == []
    decreases 256 - id
  {
    if id <= LAST_PROPERTY {
      NoItems(id + 1);
    }
  }

  lemma RowConcat(ts: seq<Type>, cs: seq<Cell>, us: seq<Type>, ds: seq<Cell>)
    requires RowOk(ts, cs) && RowOk(us, ds)
    ensures RowOk(ts + us, cs + ds)
  {
    forall i | 0 <= i < |ts + us| ensures CellOk((ts + us)[i], (cs + ds)[i]) {
      if i < |ts| {
        assert CellOk(ts[i], cs[i]);
      } else {
        assert CellOk(us[i - |ts|], ds[i - |ts|]);
      }
    }
  }

  // --- CONNECT -----------------------------------------------------------

  lemma TailOk(v: Version, will: Option<Will>, user: Option<Bytes>, pass: Option<Bytes>)
    requires WillOk(v, will) && (user.Some? ==> IsStr(user.value)) && (pass.Some? ==> |pass.value| < U16_SPACE)
    ensures RowOk(TailTypes(v, will.Some?, user.Some?, pass.Some?), TailCells(v, will, user, pass))
  {
    RowConcat(if user.Some? then [TStr] else [], TextCells(user), if pass.Some? then [TBin] else [], TextCells(pass));
    if will.Some? {
      PropCellOk(v, will.value.properties);
      RowConcat(PropTypes(v), PropCells(v, will.value.properties),
                [TStr, TBin], [CText(will.value.topic), CText(will.value.payload)]);
    }
    RowConcat(if will.Some? then PropTypes(v) + [TStr, TBin] else [], WillCells(v, will),
              (if user.Some? then [TStr] else []) + (if pass.Some? then [TBin] else []), TextCells(user) + TextCells(pass));
  }

  /** Where the optional parts are found again. */
  lemma TailParts(v: Version, will: Option<Will>, user: Option<Bytes>, pass: Option<Bytes>)
    ensures var cs, w := TailCells(v, will, user, pass), WillWidth(v, will.Some?);
      && (will.Some? ==> TextAt(cs, w - 2) == will.value.topic && TextAt(cs, w - 1) == will.value.payload
                         && PropsAt(v, cs, 0) == NormalProps(v, will.value.properties))
      && (user.Some? ==> TextAt(cs, w) == user.value)
      && (pass.Some? ==> TextAt(cs, w + Bit(user.Some?)) == pass.value)
  {
  }

  lemma FlagBits(clean: bool, will: Option<Will>, user: bool, pass: bool)
    ensures var f := ConnectFlags(clean, will, user, pass);
      && f < 256 && ((f / 2) % 2 == 1) == clean && HasWill(f) == will.Some? && HasPass(f) == pass && HasUser(f) == user
      && (f / 8) % 4 == (if will.Some? then QosBits(will.value.qos) else 0)
      && (will.Some? ==> ((f / 32) % 2 == 1) == will.value.retain)
  {
    var f, c, p, u := ConnectFlags(clean, will, user, pass), Bit(clean), Bit(pass), Bit(user);
    var w, q, r := Bit(will.Some?), if will.Some? then QosBits(will.value.qos) else 0,
      if will.Some? then Bit(will.value.retain) else 0;
    assert f == 2 * c + 4 * w + 8 * q + 32 * r + 64 * p + 128 * u;
    assert f / 2 == c + 2 * w + 4 * q + 16 * r + 32 * p + 64 * u;
    assert f / 4 == w + 2 * q + 8 * r + 16 * p + 32 * u;
    assert f / 8 == q + 4 * r + 8 * p + 16 * u;
    assert f / 32 == r + 2 * p + 4 * u;
    assert f / 64 == p + 2 * u && f / 128 == u;
  }

  function WillQos(will: Option<Will>): QoS { if will.Some? then will.value.qos else AtMostOnce }

  function FlagsIn(p: Packet): nat
    requires p.Connect?
  {
    ConnectFlags(p.cleanSession, p.will, p.username.Some?, p.password.Some?)
  }

  /** What the flags say about the packet. */
  predicate Describes(f: nat, p: Packet)
    requires p.Connect?
  {
    && f < 256 && ((f / 2) % 2 == 1) == p.cleanSession
    && HasWill(f) == p.will.Some? && HasPass(f) == p.password.Some? && HasUser(f) == p.username.Some?
    && (p.will.Some? ==> ((f / 32) % 2 == 1) == p.will.value.retain)
  }

  lemma FlagsDescribe(p: Packet)
    requires p.Connect?
    ensures Describes(FlagsIn(p), p) && QosOf((FlagsIn(p) / 8) % 4) == Some(WillQos(p.will))
  {
    FlagBits(p.cleanSession, p.will, p.username.Some?, p.password.Some?);
  }

  lemma TailPacketBack(p: Packet, flags: nat)
    requires p.Connect? && Describes(flags, p)
    ensures TailPacket(p.protocol, flags, WillQos(p.will), p.keepAlive, NormalProps(p.protocol, p.properties), p.clientId,
                       TailCells(p.protocol, p.will, p.username, p.password)) == Normal(p, V5)
  {
    TailParts(p.protocol, p.will, p.username, p.password);
  }

  lemma TailStep(v: Version, flags: nat, q: QoS, keepAlive: nat, p: Option<Properties>, id: Bytes, s: Bytes, cs: seq<Cell>)
    requires ReadRow(TailTypes(v, HasWill(flags), HasUser(flags), HasPass(flags)), s) == Ok(cs, [])
    ensures DecodeTail(v, flags, q, keepAlive, p, id, s) == Done(TailPacket(v, flags, q, keepAlive, p, id, cs))
  {
  }

  function TailBytes(p: Packet): Bytes
    requires p.Connect?
  {
    PutRow(TailTypes(p.protocol, p.will.Some?, p.username.Some?, p.password.Some?),
           TailCells(p.protocol, p.will, p.username, p.password))
  }

  lemma TailBack(p: Packet)
    requires p.Connect? && Fields(p, V5)
    ensures DecodeTail(p.protocol, FlagsIn(p), WillQos(p.will), p.keepAlive, NormalProps(p.protocol, p.properties), p.clientId,
                       TailBytes(p)) == Done(Normal(p, V5))
  {
    var v, cs := p.protocol, TailCells(p.protocol, p.will, p.username, p.password);
    FlagsDescribe(p);
    TailOk(v, p.will, p.username, p.password);
    RowEnds(TailTypes(v, p.will.Some?, p.username.Some?, p.password.Some?), cs);
    TailStep(v, FlagsIn(p), WillQos(p.will), p.keepAlive, NormalProps(v, p.properties), p.clientId, TailBytes(p), cs);
    TailPacketBack(p, FlagsIn(p));
  }

  lemma HeadOk(v: Version, flags: nat, keepAlive: nat, p: Option<Properties>, id: Bytes)
    requires flags < 256 && keepAlive < U16_SPACE && Fit(v, p) && IsStr(id)
    ensures RowOk(HeadTypes(v), HeadCells(v, flags, keepAlive, p, id))
  {
    PropCellOk(v, p);
    RowConcat(PropTypes(v), PropCells(v, p), [TStr], [CText(id)]);
    RowConcat([TU8, TU16], [CNum(flags), CNum(keepAlive)], PropTypes(v) + [TStr], PropCells(v, p) + [CText(id)]);
  }

  lemma HeadParts(v: Version, flags: nat, keepAlive: nat, p: Option<Properties>, id: Bytes)
    ensures var cs := HeadCells(v, flags, keepAlive, p, id);
      NumAt(cs, 0) == flags && NumAt(cs, 1) == keepAlive && PropsAt(v, cs, 2) == NormalProps(v, p) && TextAt(cs, |cs| - 1) == id
  {
  }

  lemma HeadStep(v: Version, s: Bytes, cs: seq<Cell>, rest: Bytes, flags: nat, q: QoS, keep: nat, p: Option<Properties>, id: Bytes)
    requires ReadRow(HeadTypes(v), s) == Ok(cs, rest) && QosOf((flags / 8) % 4) == Some(q)
    requires NumAt(cs, 0) == flags && NumAt(cs, 1) == keep && PropsAt(v, cs, 2) == p && TextAt(cs, |cs| - 1) == id
    ensures DecodeHead(v, s) == DecodeTail(v, flags, q, keep, p, id, rest)
  {
  }

  function HeadBytes(p: Packet): Bytes
    requires p.Connect?
  {
    PutRow(HeadTypes(p.protocol), HeadCells(p.protocol, FlagsIn(p), p.keepAlive, p.properties, p.clientId))
  }

  lemma HeadBack(p: Packet)
    requires p.Connect? && Fields(p, V5)
    ensures DecodeHead(p.protocol, HeadBytes(p) + TailBytes(p)) == Done(Normal(p, V5))
  {
    var v, cs := p.protocol, HeadCells(p.protocol, FlagsIn(p), p.keepAlive, p.properties, p.clientId);
    FlagsDescribe(p);
    HeadOk(v, FlagsIn(p), p.keepAlive, p.properties, p.clientId);
    HeadParts(v, FlagsIn(p), p.keepAlive, p.properties, p.clientId);
    RowBack(HeadTypes(v), cs, TailBytes(p));
    HeadStep(v, HeadBytes(p) + TailBytes(p), cs, TailBytes(p), FlagsIn(p), WillQos(p.will), p.keepAlive,
             NormalProps(v, p.properties), p.clientId);
    TailBack(p);
  }

  lemma LevelStep(v: Version, s: Bytes, rest: Bytes)
    requires ReadRow([TU8], s) == Ok([CNum(Level(v))], rest)
    ensures DecodeLevel(s) == DecodeHead(v, rest)
  {
  }

  lemma NameStep(s: Bytes, rest: Bytes)
    requires ReadRow([TStr], s) == Ok([CText(MQTT)], rest)
    ensures DecodeConnect(s) == DecodeLevel(rest)
  {
  }

  lemma NameIsStr()
    ensures IsStr(MQTT)
  {
    var a: Bytes, b: Bytes, c: Bytes := [84], [84, 84], [81, 84, 84];
    assert a[1..] == [] && b[1..] == a && c[1..] == b && MQTT[1..] == c;
    assert Utf8.Valid(a) && Utf8.Valid(b) && Utf8.Valid(c);
  }

  lemma ConnectBack(p: Packet)
    requires p.Connect? && Fields(p, V5)
    ensures DecodeConnect(ConnectBody(p)) == Done(Normal(p, V5))
  {
    var tail := HeadBytes(p) + TailBytes(p);
    var level := PutRow([TU8], [CNum(Level(p.protocol))]) + tail;
    NameIsStr();
    RowBack([TStr], [CText(MQTT)], level);
    RowBack([TU8], [CNum(Level(p.protocol))], tail);
    NameStep(ConnectBody(p), level);
    LevelStep(p.protocol, level, tail);
    HeadBack(p);
  }
}
