/** The round trip of the remaining packets, and of packets as such. */
module MqttCodec {
  import opened Common
  import opened Parsing
  import opened MqttWire
  import opened MqttPackets
  import opened MqttRoundTrip

  // --- CONNACK, PUBLISH, acknowledgements --------------------------------

  lemma ConnAckStep(s: Bytes, row: Bytes, v: Version, cs: seq<Cell>, session: bool, code: byte)
    requires |s| >= 2 && s[2..] == row && (s[0] % 2 == 1) == session && s[1] == code
    requires ReadRow(PropTypes(v), row) == Ok(cs, [])
    ensures DecodeConnAck(s, v) == Done(ConnAck(session, code, PropsAt(v, cs, 0)))
  {
  }

  lemma ConnAckHead(session: bool, code: byte, row: Bytes)
    ensures var s := [Bit(session), code] + row;
      |s| >= 2 && s[2..] == row && (s[0] % 2 == 1) == session && s[1] == code
  {
  }

  lemma ConnAckBack(p: Packet, v: Version)
    requires p.ConnAck? && Fields(p, v)
    ensures DecodeConnAck([Bit(p.sessionPresent), p.code] + PutRow(PropTypes(v), PropCells(v, p.properties)), v) == Done(Normal(p, v))
  {
    var cs := PropCells(v, p.properties);
    var row := PutRow(PropTypes(v), cs);
    PropCellOk(v, p.properties);
    RowEnds(PropTypes(v), cs);
    ConnAckHead(p.sessionPresent, p.code, row);
    ConnAckStep([Bit(p.sessionPresent), p.code] + row, row, v, cs, p.sessionPresent, p.code);
  }

  lemma PublishOk(p: Packet, v: Version)
    requires p.Publish? && Fields(p, v)
    ensures RowOk(PublishTypes(p.qos, v), PublishCells(p, v))
  {
    var ids := if p.qos.AtMostOnce? then [] else [TU16];
    var cells := if p.qos.AtMostOnce? then [] else [CNum(if p.id.Some? then p.id.value else 0)];
    PropCellOk(v, p.properties);
    RowConcat(ids, cells, PropTypes(v), PropCells(v, p.properties));
    RowConcat([TStr], [CText(p.topic)], ids + PropTypes(v), cells + PropCells(v, p.properties));
  }

  lemma PublishParts(p: Packet, v: Version)
    requires p.Publish?
    ensures var cs := PublishCells(p, v);
      && TextAt(cs, 0) == p.topic && PropsAt(v, cs, |cs| - 1) == NormalProps(v, p.properties)
      && (!p.qos.AtMostOnce? ==> NumAt(cs, 1) == if p.id.Some? then p.id.value else 0)
  {
  }

  lemma PublishStep(s: Bytes, flags: nat, v: Version, q: QoS, cs: seq<Cell>, rest: Bytes)
    requires QosOf((flags / 2) % 4) == Some(q) && ReadRow(PublishTypes(q, v), s) == Ok(cs, rest)
    requires v.V311? ==> TextAt(cs, 0) != []
    ensures DecodePublish(s, flags, v) ==
      Done(Publish((flags / 8) % 2 == 1, q, flags % 2 == 1, TextAt(cs, 0),
                   if q.AtMostOnce? then None else Some(NumAt(cs, 1)), rest, PropsAt(v, cs, |cs| - 1)))
  {
  }

  lemma PublishBits(p: Packet)
    requires p.Publish?
    ensures var f := PublishFlags(p);
      f < 16 && (f / 2) % 4 == QosBits(p.qos) && ((f / 8) % 2 == 1) == p.dup && (f % 2 == 1) == p.retain
  {
  }

  lemma PublishJoin(p: Packet, v: Version, s: Bytes, f: nat, cs: seq<Cell>)
    requires p.Publish?
    requires ((f / 8) % 2 == 1) == p.dup && (f % 2 == 1) == p.retain
    requires TextAt(cs, 0) == p.topic && PropsAt(v, cs, |cs| - 1) == NormalProps(v, p.properties)
    requires !p.qos.AtMostOnce? ==> NumAt(cs, 1) == if p.id.Some? then p.id.value else 0
    requires DecodePublish(s, f, v) ==
      Done(Publish((f / 8) % 2 == 1, p.qos, f % 2 == 1, TextAt(cs, 0),
                   if p.qos.AtMostOnce? then None else Some(NumAt(cs, 1)), p.payload, PropsAt(v, cs, |cs| - 1)))
    ensures DecodePublish(s, f, v) == Done(Normal(p, v))
  {
  }

  lemma QosBack(q: QoS)
    ensures QosOf(QosBits(q)) == Some(q)
  {
  }

  lemma PublishBack(p: Packet, v: Version)
    requires p.Publish? && Fields(p, v)
    ensures DecodePublish(PutRow(PublishTypes(p.qos, v), PublishCells(p, v)) + p.payload, PublishFlags(p), v) == Done(Normal(p, v))
  {
    var s, cs := PutRow(PublishTypes(p.qos, v), PublishCells(p, v)) + p.payload, PublishCells(p, v);
    PublishBits(p);
    QosBack(p.qos);
    PublishOk(p, v);
    PublishParts(p, v);
    RowBack(PublishTypes(p.qos, v), cs, p.payload);
    PublishStep(s, PublishFlags(p), v, p.qos, cs, p.payload);
    PublishJoin(p, v, s, PublishFlags(p), cs);
  }

  lemma PropsEnd(p: Properties)
    requires PropsFit(p)
    ensures PutProps(p) != [] && ReadProps(PutProps(p)) == Ok(p, [])
  {
    PropsBack(p, []);
    assert PutProps(p) + [] == PutProps(p);
  }

  lemma ReasonStep(s: Bytes, b: byte, p: Properties)
    requires IsReason(b) && s != [] && ReadProps(s) == Ok(p, [])
    ensures ReadReasonProps([b] + s) == Done((b, Some(p)))
  {
    assert ([b] + s)[1..] == s;
  }

  lemma ReasonPropsBack(b: byte, p: Option<Properties>)
    requires IsReason(b) && (p.Some? ==> PropsFit(p.value))
    ensures ReadReasonProps(PutReasonProps(b, p)) == Done((b, Worth(p)))
  {
    if Worth(p).Some? {
      PropsEnd(p.value);
      ReasonStep(PutProps(p.value), b, p.value);
    }
  }

  lemma AckStep(kind: AckKind, s: Bytes, n: nat, rest: Bytes, b: byte, p: Option<Properties>)
    requires ReadU16(s) == Ok(n, rest) && ReadReasonProps(rest) == Done((b, p))
    ensures DecodeAck(kind, s, V5) == Done(Ack(kind, n, b, p))
  {
  }

  lemma AckBack(p: Packet, v: Version)
    requires p.Ack? && Fields(p, v)
    ensures DecodeAck(p.kind, BodyOf(p, v), v) == Done(Normal(p, v))
  {
    var rest := if v.V5? then PutReasonProps(p.reason, p.properties) else [];
    U16Back(p.packetId, rest);
    if v.V5? {
      ReasonPropsBack(p.reason, p.properties);
      AckStep(p.kind, BodyOf(p, v), p.packetId, rest, p.reason, Worth(p.properties));
    }
  }

  // --- SUBSCRIBE, SUBACK, UNSUBSCRIBE, UNSUBACK --------------------------

  lemma IdBack(v: Version, n: nat, p: Option<Properties>, t: Bytes)
    requires n < U16_SPACE && Fit(v, p)
    ensures ReadRow(IdTypes(v), PutRow(IdTypes(v), IdCells(v, n, p)) + t) == Ok(IdCells(v, n, p), t)
  {
    PropCellOk(v, p);
    RowConcat([TU16], [CNum(n)], PropTypes(v), PropCells(v, p));
    RowBack(IdTypes(v), IdCells(v, n, p), t);
  }

  lemma IdParts(v: Version, n: nat, p: Option<Properties>)
    ensures NumAt(IdCells(v, n, p), 0) == n && PropsAt(v, IdCells(v, n, p), 1) == NormalProps(v, p)
  {
  }

  lemma TopicRow(t: SubscribeTopic, opts: nat, x: Bytes)
    requires IsStr(t.filter) && opts < 256
    ensures ReadRow([TStr, TU8], PutRow([TStr, TU8], [CText(t.filter), CNum(opts)]) + x) == Ok([CText(t.filter), CNum(opts)], x)
    ensures |PutRow([TStr, TU8], [CText(t.filter), CNum(opts)])| >= 3
  {
    RowBack([TStr, TU8], [CText(t.filter), CNum(opts)], x);
    var ts, cs := [TStr, TU8], [CText(t.filter), CNum(opts)];
    assert ts[1..] == [TU8] && cs[1..] == [CNum(opts)];
    assert PutRow([TU8], [CNum(opts)]) == [opts] + PutRow([], []);
  }

  lemma Topic5Options(t: SubscribeTopic)
    ensures Options5(t) < 256 && Topic5(t.filter, Options5(t)) == Some(t)
  {
    var o, n, r, h := Options5(t), Bit(t.noLocal), Bit(t.retainAsPublished), HandlingBits(t.retainHandling);
    assert o / 4 == n + 2 * r + 4 * h && o / 8 == r + 2 * h && o / 16 == h;
  }

  lemma Topic5Step(s: Bytes, f: Bytes, opts: nat, x: Bytes)
    requires ReadRow([TStr, TU8], s) == Ok([CText(f), CNum(opts)], x)
    ensures ReadTopic5(s) == Checked(Topic5(f, opts), x) && ReadTopic311(s) == Checked(Topic311(f, opts), x)
  {
  }

  lemma Topic5Read(t: SubscribeTopic, x: Bytes)
    requires IsStr(t.filter)
    ensures ReadTopic5(PutTopic5(t) + x) == Checked(Some(t), x) && |PutTopic5(t)| >= 3
  {
    Topic5Options(t);
    TopicRow(t, Options5(t), x);
    Topic5Step(PutTopic5(t) + x, t.filter, Options5(t), x);
  }

  lemma Topic5Back(t: SubscribeTopic)
    requires IsStr(t.filter)
    ensures Inverts(ReadTopic5, PutTopic5, t) && |PutTopic5(t)| >= 3
  {
    Topic5Read(t, []);
    forall x ensures ReadTopic5(PutTopic5(t) + x) == Ok(t, x) {
      Topic5Read(t, x);
    }
  }

  lemma Topic311Options(t: SubscribeTopic)
    requires t == NormalTopic(V311, t)
    ensures Options311(t) < 256 && Topic311(t.filter, Options311(t)) == Some(t)
  {
  }

  lemma Topic311Read(t: SubscribeTopic, x: Bytes)
    requires IsStr(t.filter) && t == NormalTopic(V311, t)
    ensures ReadTopic311(PutTopic311(t) + x) == Checked(Some(t), x) && |PutTopic311(t)| >= 3
  {
    Topic311Options(t);
    TopicRow(t, Options311(t), x);
    Topic5Step(PutTopic311(t) + x, t.filter, Options311(t), x);
  }

  lemma Topic311Back(t: SubscribeTopic)
    requires IsStr(t.filter) && t == NormalTopic(V311, t)
    ensures Inverts(ReadTopic311, PutTopic311, t) && |PutTopic311(t)| >= 3
  {
    Topic311Read(t, []);
    forall x ensures ReadTopic311(PutTopic311(t) + x) == Ok(t, x) {
      Topic311Read(t, x);
    }
  }

  predicate FiltersOk(ts: seq<SubscribeTopic>) { forall i :: 0 <= i < |ts| ==> IsStr(ts[i].filter) }

  /** Written for 3.1.1, a filter and its normal form look the same. */
  lemma {:induction false} NormalTopicsSame(v: Version, ts: seq<SubscribeTopic>)
    requires FiltersOk(ts)
    ensures PutTopics(v, NormalTopics(v, ts)) == PutTopics(v, ts)
    ensures |NormalTopics(v, ts)| == |ts| && FiltersOk(NormalTopics(v, ts))
    ensures forall i :: 0 <= i < |ts| ==> NormalTopics(v, ts)[i] == NormalTopic(v, NormalTopics(v, ts)[i])
    decreases |ts|
  {
    if ts != [] {
      NormalTopicsSame(v, ts[1..]);
      assert NormalTopics(v, ts)[1..] == NormalTopics(v, ts[1..]);
    }
  }

  lemma TopicsBack(v: Version, ts: seq<SubscribeTopic>)
    requires FiltersOk(ts) && forall i :: 0 <= i < |ts| ==> ts[i] == NormalTopic(v, ts[i])
    ensures ReadTopics(v, PutTopics(v, ts)) == Ok(ts, [])
  {
    if v.V5? {
      forall i | 0 <= i < |ts| ensures Inverts(ReadTopic5, PutTopic5, ts[i]) && |PutTopic5(ts[i])| > 2 {
        Topic5Back(ts[i]);
      }
      ManyBack(ReadTopic5, PutTopic5, ts, [], 2);
    } else {
      forall i | 0 <= i < |ts| ensures Inverts(ReadTopic311, PutTopic311, ts[i]) && |PutTopic311(ts[i])| > 2 {
        Topic311Back(ts[i]);
      }
      ManyBack(ReadTopic311, PutTopic311, ts, [], 2);
    }
    assert PutTopics(v, ts) + [] == PutTopics(v, ts);
  }

  lemma SubscribeStep(s: Bytes, v: Version, cs: seq<Cell>, more: Bytes, ts: seq<SubscribeTopic>)
    requires ReadRow(IdTypes(v), s) == Ok(cs, more) && ReadTopics(v, more) == Ok(ts, []) && ts != []
    ensures DecodeSubscribe(s, v) == Done(Subscribe(NumAt(cs, 0), ts, PropsAt(v, cs, 1)))
  {
  }

  lemma SubscribeBack(p: Packet, v: Version)
    requires p.Subscribe? && Fields(p, v)
    ensures DecodeSubscribe(BodyOf(p, v), v) == Done(Normal(p, v))
  {
    var ts, cs := NormalTopics(v, p.topics), IdCells(v, p.packetId, p.properties);
    IdBack(v, p.packetId, p.properties, PutTopics(v, p.topics));
    IdParts(v, p.packetId, p.properties);
    NormalTopicsSame(v, p.topics);
    TopicsBack(v, ts);
    SubscribeStep(BodyOf(p, v), v, cs, PutTopics(v, p.topics), ts);
  }

  lemma ReasonsBack(rs: seq<byte>)
    requires ReasonsOk(rs)
    ensures ReadReasons(PutAll(PutByte, rs)) == Ok(rs, [])
  {
    forall i | 0 <= i < |rs| ensures Inverts(ReadReason, PutByte, rs[i]) {
      forall t ensures ReadReason(PutByte(rs[i]) + t) == Ok(rs[i], t) {
        assert ([rs[i]] + t)[1..] == t;
      }
    }
    ManyBack(ReadReason, PutByte, rs, [], 0);
    assert PutAll(PutByte, rs) + [] == PutAll(PutByte, rs);
  }

  lemma CodesBack(cs: seq<SubAckCode>)
    ensures ReadCodes(PutAll(PutCode, cs)) == Ok(cs, [])
  {
    forall i | 0 <= i < |cs| ensures Inverts(ReadCode, PutCode, cs[i]) {
      forall t ensures ReadCode(PutCode(cs[i]) + t) == Ok(cs[i], t) {
        assert (PutCode(cs[i]) + t)[1..] == t;
      }
    }
    ManyBack(ReadCode, PutCode, cs, [], 0);
    assert PutAll(PutCode, cs) + [] == PutAll(PutCode, cs);
  }

  lemma {:induction false} CodesAreReasons(cs: seq<SubAckCode>)
    ensures ReasonsOk(Reasons(cs))
  {
    if cs != [] {
      CodesAreReasons(cs[1..]);
    }
  }

  lemma SubAckStep(s: Bytes, cs: seq<Cell>, more: Bytes, rs: seq<byte>)
    requires ReadRow(IdTypes(V5), s) == Ok(cs, more) && ReadReasons(more) == Ok(rs, [])
    ensures DecodeSubAck(s, V5) == Done(SubAck(NumAt(cs, 0), Codes(rs), Some(rs), PropsAt(V5, cs, 1)))
    ensures DecodeUnsubAck(s, V5) == Done(UnsubAck(NumAt(cs, 0), Some(rs), PropsAt(V5, cs, 1)))
  {
  }

  lemma SubAck311Step(s: Bytes, cs: seq<Cell>, more: Bytes, codes: seq<SubAckCode>)
    requires ReadRow(IdTypes(V311), s) == Ok(cs, more) && ReadCodes(more) == Ok(codes, [])
    ensures DecodeSubAck(s, V311) == Done(SubAck(NumAt(cs, 0), codes, None, None))
  {
  }

  lemma SubAckBack(p: Packet, v: Version)
    requires p.SubAck? && Fields(p, v)
    ensures DecodeSubAck(BodyOf(p, v), v) == Done(Normal(p, v))
  {
    var cs := IdCells(v, p.packetId, p.properties);
    IdParts(v, p.packetId, p.properties);
    if v.V5? {
      var rs := if p.reasons.Some? then p.reasons.value else Reasons(p.codes);
      CodesAreReasons(p.codes);
      IdBack(v, p.packetId, p.properties, PutAll(PutByte, rs));
      ReasonsBack(rs);
      SubAckStep(BodyOf(p, v), cs, PutAll(PutByte, rs), rs);
    } else {
      IdBack(v, p.packetId, p.properties, PutAll(PutCode, p.codes));
      CodesBack(p.codes);
      SubAck311Step(BodyOf(p, v), cs, PutAll(PutCode, p.codes), p.codes);
    }
  }

  lemma UnsubAckBack(p: Packet, v: Version)
    requires p.UnsubAck? && Fields(p, v)
    ensures DecodeUnsubAck(BodyOf(p, v), v) == Done(Normal(p, v))
  {
    if v.V5? {
      var cs, rs := IdCells(v, p.packetId, p.properties), if p.reasons.Some? then p.reasons.value else [];
      IdParts(v, p.packetId, p.properties);
      IdBack(v, p.packetId, p.properties, PutAll(PutByte, rs));
      ReasonsBack(rs);
      SubAckStep(BodyOf(p, v), cs, PutAll(PutByte, rs), rs);
    } else {
      U16Back(p.packetId, []);
      assert PutU16(p.packetId) + [] == PutU16(p.packetId);
    }
  }

  lemma FiltersBack(fs: seq<Bytes>)
    requires forall i :: 0 <= i < |fs| ==> IsStr(fs[i])
    ensures ReadFilters(PutAll(PutBin, fs)) == Ok(fs, [])
  {
    forall i | 0 <= i < |fs| ensures Inverts(ReadStr, PutBin, fs[i]) && |PutBin(fs[i])| > 1 {
      forall t ensures ReadStr(PutBin(fs[i]) + t) == Ok(fs[i], t) {
        StrBack(fs[i], t);
      }
    }
    ManyBack(ReadStr, PutBin, fs, [], 1);
    assert PutAll(PutBin, fs) + [] == PutAll(PutBin, fs);
  }

  lemma UnsubscribeStep(s: Bytes, v: Version, cs: seq<Cell>, more: Bytes, fs: seq<Bytes>)
    requires ReadRow(IdTypes(v), s) == Ok(cs, more) && ReadFilters(more) == Ok(fs, [])
    ensures DecodeUnsubscribe(s, v) == Done(Unsubscribe(NumAt(cs, 0), fs, PropsAt(v, cs, 1)))
  {
  }

  lemma UnsubscribeBack(p: Packet, v: Version)
    requires p.Unsubscribe? && Fields(p, v)
    ensures DecodeUnsubscribe(BodyOf(p, v), v) == Done(Normal(p, v))
  {
    IdParts(v, p.packetId, p.properties);
    IdBack(v, p.packetId, p.properties, PutAll(PutBin, p.filters));
    FiltersBack(p.filters);
    UnsubscribeStep(BodyOf(p, v), v, IdCells(v, p.packetId, p.properties), PutAll(PutBin, p.filters), p.filters);
  }

  /** Every repeated reader takes at least one octet, so repetition never stands still. */
  lemma ReadersTake(s: Bytes)
    ensures ReadItem(s).Ok? ==> |ReadItem(s).rest| < |s|
    ensures ReadTopic5(s).Ok? ==> |ReadTopic5(s).rest| < |s|
    ensures ReadTopic311(s).Ok? ==> |ReadTopic311(s).rest| < |s|
    ensures ReadReason(s).Ok? ==> |ReadReason(s).rest| < |s|
    ensures ReadCode(s).Ok? ==> |ReadCode(s).rest| < |s|
    ensures ReadStr(s).Ok? ==> |ReadStr(s).rest| < |s|
  {
    TopicRowTakes(s);
  }

  lemma TopicRowTakes(s: Bytes)
    ensures ReadRow([TStr, TU8], s).Ok? ==> |ReadRow([TStr, TU8], s).rest| < |s|
  {
    var first := ReadCell(TStr, s);
    assert [TStr, TU8][1..] == [TU8] && [TU8][1..] == [];
    if first.Ok? {
      var second := ReadCell(TU8, first.rest);
      assert ReadRow([TU8], first.rest).Ok? ==> second.Ok? && ReadRow([TU8], first.rest).rest == second.rest;
    }
  }

  // --- packets -----------------------------------------------------------

  lemma DisconnectBack(p: Packet, v: Version)
    requires p.Disconnect? && Fields(p, v)
    ensures DecodeDisconnect(BodyOf(p, v), v) == Done(Normal(p, v))
  {
    if v.V5? {
      ReasonPropsBack(p.reason, p.properties);
    }
  }

  lemma AuthBack(p: Packet, v: Version)
    requires p.Auth? && Fields(p, v)
    ensures DecodeAuth(BodyOf(p, v)) == Done(Normal(p, v))
  {
    ReasonPropsBack(p.reason, p.properties);
  }

  lemma ConnectAny(p: Packet, v: Version)
    requires p.Connect? && Fields(p, v)
    ensures DecodeConnect(BodyOf(p, v)) == Done(Normal(p, v))
  {
    ConnectBack(p);
  }

  function KindIn(p: Packet): PacketKind {
    match p
    case Connect(_, _, _, _, _, _, _, _) => KConnect
    case ConnAck(_, _, _) => KConnAck
    case Publish(_, _, _, _, _, _, _) => KPublish
    case Ack(k, _, _, _) => KAck(k)
    case Subscribe(_, _, _) => KSubscribe
    case SubAck(_, _, _, _) => KSubAck
    case Unsubscribe(_, _, _) => KUnsubscribe
    case UnsubAck(_, _, _) => KUnsubAck
    case PingReq => KPingReq
    case PingResp => KPingResp
    case Disconnect(_, _) => KDisconnect
    case Auth(_, _) => KAuth
  }

  /** The type and flags written lead to the reader of that packet. */
  lemma KindBack(p: Packet)
    ensures KindFor(TypeOf(p), FlagsOf(p)) == Some(KindIn(p))
  {
  }

  lemma DispatchStep(typ: nat, flags: nat, s: Bytes, v: Version, k: PacketKind)
    requires KindFor(typ, flags) == Some(k)
    ensures DecodeBody(typ, flags, s, v) == DecodeAs(k, flags, s, v)
  {
  }

  function Reader(p: Packet, s: Bytes, v: Version): Decoded<Packet> {
    match p
    case Connect(_, _, _, _, _, _, _, _) => DecodeConnect(s)
    case ConnAck(_, _, _) => DecodeConnAck(s, v)
    case Publish(_, _, _, _, _, _, _) => DecodePublish(s, PublishFlags(p), v)
    case Ack(k, _, _, _) => DecodeAck(k, s, v)
    case Subscribe(_, _, _) => DecodeSubscribe(s, v)
    case SubAck(_, _, _, _) => DecodeSubAck(s, v)
    case Unsubscribe(_, _, _) => DecodeUnsubscribe(s, v)
    case UnsubAck(_, _, _) => DecodeUnsubAck(s, v)
    case PingReq => Done(PingReq)
    case PingResp => Done(PingResp)
    case Disconnect(_, _) => DecodeDisconnect(s, v)
    case Auth(_, _) => DecodeAuth(s)
  }

  lemma DecodeAsReader(p: Packet, s: Bytes, v: Version)
    ensures DecodeAs(KindIn(p), FlagsOf(p), s, v) == Reader(p, s, v)
  {
    match p
    case Publish(_, _, _, _, _, _, _) =>
    case _ =>
  }

  lemma ReaderBack(p: Packet, v: Version)
    requires Fields(p, v)
    ensures Reader(p, BodyOf(p, v), v) == Done(Normal(p, v))
  {
    match p
    case Connect(_, _, _, _, _, _, _, _) => ConnectAny(p, v);
    case ConnAck(_, _, _) => ConnAckBack(p, v);
    case Publish(_, _, _, _, _, _, _) => PublishBack(p, v);
    case Ack(_, _, _, _) => AckBack(p, v);
    case Subscribe(_, _, _) => SubscribeBack(p, v);
    case SubAck(_, _, _, _) => SubAckBack(p, v);
    case Unsubscribe(_, _, _) => UnsubscribeBack(p, v);
    case UnsubAck(_, _, _) => UnsubAckBack(p, v);
    case PingReq =>
    case PingResp =>
    case Disconnect(_, _) => DisconnectBack(p, v);
    case Auth(_, _) => AuthBack(p, v);
  }

  lemma BodyBack(p: Packet, v: Version)
    requires Fields(p, v)
    ensures DecodeBody(TypeOf(p), FlagsOf(p), BodyOf(p, v), v) == Done(Normal(p, v))
  {
    KindBack(p);
    ReaderBack(p, v);
    DecodeAsReader(p, BodyOf(p, v), v);
    DispatchStep(TypeOf(p), FlagsOf(p), BodyOf(p, v), v, KindIn(p));
  }

  lemma TypeAndFlags(p: Packet)
    ensures TypeOf(p) < 16 && FlagsOf(p) < 16
  {
    if p.Publish? {
      PublishBits(p);
    }
  }

  lemma Halves(typ: nat, flags: nat)
    requires typ < 16 && flags < 16
    ensures (typ * 16 + flags) / 16 == typ && (typ * 16 + flags) % 16 == flags
  {
  }

  lemma DecodeStep(s: Bytes, v: Version, first: byte, typ: nat, flags: nat, body: Bytes, total: nat, p: Packet)
    requires first / 16 == typ && first % 16 == flags
    requires Frame(s) == Framed(first, body, total) && DecodeBody(typ, flags, body, v) == Done(p)
    ensures Decode(s, v) == One(p, total)
  {
  }

  /** `s` is read as `p`, over exactly its own octets, whatever follows. */
  predicate ReadAs(s: Bytes, t: Bytes, v: Version, p: Packet) { Decode(s + t, v) == One(p, |s|) }

  predicate FrameOf(s: Bytes, typ: nat, flags: nat, body: Bytes) {
    typ < 16 && flags < 16 && |body| <= VARINT_MAX && s == PutFrame(typ * 16 + flags, body)
  }

  lemma FrameRound(typ: nat, flags: nat, body: Bytes, v: Version, s: Bytes, t: Bytes, p: Packet)
    requires FrameOf(s, typ, flags, body) && DecodeBody(typ, flags, body, v) == Done(p)
    ensures ReadAs(s, t, v, p)
  {
    var first := typ * 16 + flags;
    Halves(typ, flags);
    FrameBack(first, body, t);
    DecodeStep(s + t, v, first, typ, flags, body, |s|, p);
  }

  lemma EncodedFrame(p: Packet, v: Version)
    requires |BodyOf(p, v)| <= VARINT_MAX
    ensures FrameOf(Encode(p, v), TypeOf(p), FlagsOf(p), BodyOf(p, v))
  {
    TypeAndFlags(p);
  }

  lemma WrittenBack(p: Packet, v: Version, t: Bytes)
    requires Encodable(p, v)
    ensures ReadAs(Encode(p, v), t, v, Normal(p, v))
  {
    EncodedFrame(p, v);
    BodyBack(p, v);
    FrameRound(TypeOf(p), FlagsOf(p), BodyOf(p, v), v, Encode(p, v), t, Normal(p, v));
  }

  /** A written packet is read back in its normal form, over exactly its own octets, whatever follows. */
  lemma RoundTrip(p: Packet, v: Version, t: Bytes)
    requires Encodable(p, v)
    ensures Decode(Encode(p, v) + t, v) == One(Normal(p, v), |Encode(p, v)|)
  {
    WrittenBack(p, v, t);
  }

  /** So exactly the packets in normal form come back as they were. */
  lemma RoundTripIffNormal(p: Packet, v: Version, t: Bytes)
    requires Encodable(p, v)
    ensures Decode(Encode(p, v) + t, v) == One(p, |Encode(p, v)|) <==> Normal(p, v) == p
  {
    RoundTrip(p, v, t);
  }

  /** Every strict prefix of a written packet asks for more. */
  lemma EncodedPrefix(p: Packet, v: Version, k: nat)
    requires Encodable(p, v) && k < |Encode(p, v)|
    ensures Decode(Encode(p, v)[..k], v).More?
  {
    RoundTrip(p, v, []);
    assert Encode(p, v) + [] == Encode(p, v);
    StrictPrefixNeedsMore(Encode(p, v), v, k);
  }
}
