/** Packets that were read and are written again. */
module MqttReencode {
  import opened Common
  import opened Parsing
  import opened MqttWire
  import opened MqttPackets
  import opened MqttRoundTrip
  import opened MqttCodec
  import opened MqttSound
  import opened MqttGrowth

  // --- which packets can be written --------------------------------------

  lemma {:induction false} RowHolds(ts: seq<Type>, cs: seq<Cell>, i: nat)
    requires i < |ts| && i < |cs|
    ensures |PutCell(ts[i], cs[i])| <= |PutRow(ts, cs)|
    decreases i
  {
    if i > 0 {
      RowHolds(ts[1..], cs[1..], i - 1);
    }
  }

  lemma RowFits(ts: seq<Type>, cs: seq<Cell>, i: nat, p: Properties)
    requires i < |ts| && i < |cs| && ts[i] == TProps && cs[i] == CProps(p)
    requires PropsOk(p) && |PutRow(ts, cs)| <= VARINT_MAX
    ensures PropsFit(p)
  {
    RowHolds(ts, cs, i);
  }

  lemma PropCellsFit(v: Version, props: Option<Properties>)
    requires PropsFor(v, props) && |PutRow(PropTypes(v), PropCells(v, props))| <= VARINT_MAX
    ensures Fit(v, props)
  {
    if v.V5? {
      RowFits(PropTypes(v), PropCells(v, props), 0, props.value);
    }
  }

  lemma IdCellsFit(v: Version, n: nat, props: Option<Properties>)
    requires PropsFor(v, props) && |PutRow(IdTypes(v), IdCells(v, n, props))| <= VARINT_MAX
    ensures Fit(v, props)
  {
    if v.V5? {
      RowFits(IdTypes(v), IdCells(v, n, props), 1, props.value);
    }
  }

  lemma PublishFits(p: Packet, v: Version)
    requires p.Publish? && PropsFor(v, p.properties) && |PutRow(PublishTypes(p.qos, v), PublishCells(p, v))| <= VARINT_MAX
    ensures Fit(v, p.properties)
  {
    if v.V5? {
      RowFits(PublishTypes(p.qos, v), PublishCells(p, v), if p.qos.AtMostOnce? then 1 else 2, p.properties.value);
    }
  }

  lemma ReasonFits(v: Version, reason: byte, props: Option<Properties>)
    requires MaybeProps(v, props) && |PutReasonProps(reason, props)| <= VARINT_MAX
    ensures Fit(v, props)
  {
    EmptyFits();
  }

  lemma HeadFits(v: Version, flags: nat, keep: nat, props: Option<Properties>, id: Bytes)
    requires PropsFor(v, props) && |PutRow(HeadTypes(v), HeadCells(v, flags, keep, props, id))| <= VARINT_MAX
    ensures Fit(v, props)
  {
    if v.V5? {
      RowFits(HeadTypes(v), HeadCells(v, flags, keep, props, id), 2, props.value);
    }
  }

  lemma WillFits(v: Version, will: Option<Will>, user: Option<Bytes>, pass: Option<Bytes>)
    requires will.Some? && PropsFor(v, will.value.properties)
    requires |PutRow(TailTypes(v, true, user.Some?, pass.Some?), TailCells(v, will, user, pass))| <= VARINT_MAX
    ensures Fit(v, will.value.properties)
  {
    if v.V5? {
      RowFits(TailTypes(v, true, user.Some?, pass.Some?), TailCells(v, will, user, pass), 0, will.value.properties.value);
    }
  }

  lemma ConnectFits(p: Packet, v: Version)
    requires p.Connect? && Sound(p, v) && |ConnectBody(p)| <= VARINT_MAX
    ensures Fields(p, v)
  {
    var flags := ConnectFlags(p.cleanSession, p.will, p.username.Some?, p.password.Some?);
    HeadFits(p.protocol, flags, p.keepAlive, p.properties, p.clientId);
    if p.will.Some? {
      WillFits(p.protocol, p.will, p.username, p.password);
    }
  }

  lemma ListFits(p: Packet, v: Version)
    requires (p.Subscribe? || p.SubAck? || p.Unsubscribe?) && Sound(p, v) && |BodyOf(p, v)| <= VARINT_MAX
    ensures Fields(p, v)
  {
    match p
    case Subscribe(n, _, props) => IdCellsFit(v, n, props);
    case SubAck(n, _, _, props) => IdCellsFit(v, n, props);
    case Unsubscribe(n, _, props) => IdCellsFit(v, n, props);
  }

  lemma AnswerFits(p: Packet, v: Version)
    requires (p.Ack? || p.UnsubAck? || p.Disconnect? || p.Auth?) && Sound(p, v) && |BodyOf(p, v)| <= VARINT_MAX
    ensures Fields(p, v)
  {
    match p
    case Ack(_, _, reason, props) =>
      if v.V5? {
        ReasonFits(v, reason, props);
      }
    case UnsubAck(n, _, props) =>
      if v.V5? {
        IdCellsFit(v, n, props);
      }
    case Disconnect(reason, props) =>
      if v.V5? {
        ReasonFits(v, reason, props);
      }
    case Auth(reason, props) => ReasonFits(V5, reason, props);
  }

  lemma SoundFits(p: Packet, v: Version)
    requires Sound(p, v) && |BodyOf(p, v)| <= VARINT_MAX
    ensures Fields(p, v)
  {
    if p.Connect? {
      ConnectFits(p, v);
    } else if p.ConnAck? {
      PropCellsFit(v, p.properties);
    } else if p.Publish? {
      PublishFits(p, v);
    } else if p.Subscribe? || p.SubAck? || p.Unsubscribe? {
      ListFits(p, v);
    } else if !p.PingReq? && !p.PingResp? {
      AnswerFits(p, v);
    }
  }

  /**
   * A packet that was read and whose body fits the length field can be written again, and reads back
   * as the same packet exactly when it does not spell out an empty property block.
   */
  lemma ReadAgain(s: Bytes, v: Version, t: Bytes)
    requires Decode(s, v).One? && |BodyOf(Decode(s, v).packet, v)| <= VARINT_MAX
    ensures var p := Decode(s, v).packet;
      Encodable(p, v) && (Decode(Encode(p, v) + t, v) == One(p, |Encode(p, v)|) <==> !Blank(p))
  {
    var p := Decode(s, v).packet;
    DecodedIsSound(s, v);
    SoundFits(p, v);
    RoundTripIffNormal(p, v, t);
    if !Blank(p) {
      SoundIsNormal(p, v);
    }
  }

  // --- packets whose blocks end as announced ------------------------------

  predicate TidyCell(t: Type, s: Bytes) { t.TProps? ==> EndsAsAnnounced(s) }

  predicate TidyRow(ts: seq<Type>, s: Bytes)
    decreases |ts|
  {
    ts == [] || (TidyCell(ts[0], s) && (ReadCell(ts[0], s).Ok? ==> TidyRow(ts[1..], ReadCell(ts[0], s).rest)))
  }

  predicate TidyReason(s: Bytes) { |s| > 1 ==> EndsAsAnnounced(s[1..]) }

  predicate TidyHead(v: Version, s: Bytes) {
    TidyRow(HeadTypes(v), s) &&
    match ReadRow(HeadTypes(v), s)
    case Fail(_) => true
    case Ok(cs, rest) => TidyRow(TailTypes(v, HasWill(NumAt(cs, 0)), HasUser(NumAt(cs, 0)), HasPass(NumAt(cs, 0))), rest)
  }

  predicate TidyConnect(s: Bytes) {
    match ReadRow([TStr], s)
    case Fail(_) => true
    case Ok(_, more) =>
      match ReadRow([TU8], more)
      case Fail(_) => true
      case Ok(cs, rest) => TidyHead(if NumAt(cs, 0) == 5 then V5 else V311, rest)
  }

  predicate TidyPublish(s: Bytes, flags: nat, v: Version) {
    match QosOf((flags / 2) % 4)
    case None => true
    case Some(q) => TidyRow(PublishTypes(q, v), s)
  }

  /** Every property block in the body ends as announced. */
  predicate TidyBody(k: PacketKind, flags: nat, s: Bytes, v: Version) {
    match k
    case KConnect => TidyConnect(s)
    case KConnAck => |s| >= 2 ==> TidyRow(PropTypes(v), s[2..])
    case KPublish => TidyPublish(s, flags, v)
    case KAck(_) => v.V5? && |s| >= 2 ==> TidyReason(s[2..])
    case KSubscribe => TidyRow(IdTypes(v), s)
    case KSubAck => TidyRow(IdTypes(v), s)
    case KUnsubscribe => TidyRow(IdTypes(v), s)
    case KUnsubAck => v.V5? ==> TidyRow(IdTypes(v), s)
    case KPingReq => true
    case KPingResp => true
    case KDisconnect => v.V5? ==> TidyReason(s)
    case KAuth => TidyReason(s)
  }

  predicate Tidy(s: Bytes, v: Version) {
    match Frame(s)
    case Framed(first, body, _) =>
      var k := KindFor(first / 16, first % 16);
      k.Some? ==> TidyBody(k.value, first % 16, body, v)
    case _ => true
  }

  // --- their rows and lists ----------------------------------------------

  lemma CellLength(t: Type, s: Bytes)
    requires ReadCell(t, s).Ok? && TidyCell(t, s)
    ensures |PutCell(t, ReadCell(t, s).value)| <= |s| - |ReadCell(t, s).rest|
  {
    match t
    case TU8 =>
    case TU16 =>
    case TStr => BinRead(s);
    case TBin => BinRead(s);
    case TProps => BlockNeverGrows(s);
  }

  lemma RowCons(ts: seq<Type>, c: Cell, cs: seq<Cell>)
    requires ts != []
    ensures PutRow(ts, [c] + cs) == PutCell(ts[0], c) + PutRow(ts[1..], cs)
  {
    assert ([c] + cs)[1..] == cs;
  }

  lemma RowSplit(ts: seq<Type>, s: Bytes)
    requires ts != [] && ReadRow(ts, s).Ok?
    ensures ReadCell(ts[0], s).Ok? && ReadRow(ts[1..], ReadCell(ts[0], s).rest).Ok?
    ensures var tail := ReadRow(ts[1..], ReadCell(ts[0], s).rest);
      ReadRow(ts, s) == Ok([ReadCell(ts[0], s).value] + tail.value, tail.rest)
  {
  }

  lemma {:induction false} RowLength(ts: seq<Type>, s: Bytes)
    requires ReadRow(ts, s).Ok? && TidyRow(ts, s)
    ensures |PutRow(ts, ReadRow(ts, s).value)| <= |s| - |ReadRow(ts, s).rest|
    decreases |ts|
  {
    if ts != [] {
      var first := ReadCell(ts[0], s);
      RowSplit(ts, s);
      CellLength(ts[0], s);
      RowLength(ts[1..], first.rest);
      RowCons(ts, first.value, ReadRow(ts[1..], first.rest).value);
    }
  }

  /** `f` takes at least as many octets for a value as `put` writes. */
  ghost predicate Covers<T(!new)>(f: Bytes -> Read<T>, put: T -> Bytes) {
    forall s :: f(s).Ok? ==> |put(f(s).value)| <= |s| - |f(s).rest|
  }

  lemma PutCons<T>(put: T -> Bytes, x: T, xs: seq<T>)
    ensures PutAll(put, [x] + xs) == put(x) + PutAll(put, xs)
  {
    assert ([x] + xs)[1..] == xs;
  }

  lemma {:induction false} ManyLength<T(!new)>(f: Bytes -> Read<T>, put: T -> Bytes, s: Bytes, stop: nat)
    requires Covers(f, put) && ReadMany(f, s, stop).Ok?
    ensures |PutAll(put, ReadMany(f, s, stop).value)| <= |s| - |ReadMany(f, s, stop).rest|
    decreases |s|
  {
    if |s| > stop {
      ManyLength(f, put, f(s).rest, stop);
      PutCons(put, f(s).value, ReadMany(f, f(s).rest, stop).value);
    }
  }

  lemma TopicLength(filter: Bytes, opts: nat, cs: seq<Cell>)
    requires RowSound([TStr, TU8], cs) && filter == TextAt(cs, 0)
    ensures |PutRow([TStr, TU8], [CText(filter), CNum(opts)])| == |PutRow([TStr, TU8], cs)|
  {
    var ts: seq<Type> := [TStr, TU8];
    assert ts[1..] == [TU8] && ts[1..][1..] == [];
    assert cs[0] == CText(filter);
    assert cs == [cs[0]] + [cs[1]] && [CText(filter), CNum(opts)] == [CText(filter)] + [CNum(opts)];
    RowCons(ts, cs[0], [cs[1]]);
    RowCons(ts, cs[0], [CNum(opts)]);
    RowCons([TU8], cs[1], []);
    RowCons([TU8], CNum(opts), []);
    assert [cs[1]] + [] == [cs[1]] && [CNum(opts)] + [] == [CNum(opts)];
  }

  lemma TopicsCover()
    ensures Covers(ReadTopic5, PutTopic5) && Covers(ReadTopic311, PutTopic311)
  {
    forall s | ReadRow([TStr, TU8], s).Ok?
      ensures ReadTopic5(s).Ok? ==> |PutTopic5(ReadTopic5(s).value)| <= |s| - |ReadTopic5(s).rest|
      ensures ReadTopic311(s).Ok? ==> |PutTopic311(ReadTopic311(s).value)| <= |s| - |ReadTopic311(s).rest|
    {
      TopicCovered(s);
    }
  }

  lemma TopicCovered(s: Bytes)
    requires ReadRow([TStr, TU8], s).Ok?
    ensures ReadTopic5(s).Ok? ==> |PutTopic5(ReadTopic5(s).value)| <= |s| - |ReadTopic5(s).rest|
    ensures ReadTopic311(s).Ok? ==> |PutTopic311(ReadTopic311(s).value)| <= |s| - |ReadTopic311(s).rest|
  {
    var ts: seq<Type> := [TStr, TU8];
    var cs := ReadRow(ts, s).value;
    RowReads(ts, s);
    PlainRow(ts, s);
    RowLength(ts, s);
    if ReadTopic5(s).Ok? {
      TopicLength(TextAt(cs, 0), Options5(ReadTopic5(s).value), cs);
    }
    if ReadTopic311(s).Ok? {
      TopicLength(TextAt(cs, 0), Options311(ReadTopic311(s).value), cs);
    }
  }

  lemma {:induction false} PlainRow(ts: seq<Type>, s: Bytes)
    requires TProps !in ts
    ensures TidyRow(ts, s)
    decreases |ts|
  {
    if ts != [] && ReadCell(ts[0], s).Ok? {
      PlainRow(ts[1..], ReadCell(ts[0], s).rest);
    }
  }

  lemma TopicsLength(v: Version, s: Bytes)
    requires ReadTopics(v, s).Ok?
    ensures |PutTopics(v, ReadTopics(v, s).value)| <= |s|
  {
    TopicsCover();
    if v.V5? {
      ManyLength(ReadTopic5, PutTopic5, s, 2);
    } else {
      ManyLength(ReadTopic311, PutTopic311, s, 2);
    }
  }

  lemma FiltersLength(s: Bytes)
    requires ReadFilters(s).Ok?
    ensures |PutAll(PutBin, ReadFilters(s).value)| <= |s|
  {
    forall u | ReadStr(u).Ok? ensures |PutBin(ReadStr(u).value)| <= |u| - |ReadStr(u).rest| {
      BinRead(u);
    }
    ManyLength(ReadStr, PutBin, s, 1);
  }

  lemma ReasonsLength(s: Bytes)
    ensures ReadReasons(s).Ok? ==> |PutAll(PutByte, ReadReasons(s).value)| <= |s|
    ensures ReadCodes(s).Ok? ==> |PutAll(PutCode, ReadCodes(s).value)| <= |s|
  {
    if ReadReasons(s).Ok? {
      ManyLength(ReadReason, PutByte, s, 0);
    }
    if ReadCodes(s).Ok? {
      ManyLength(ReadCode, PutCode, s, 0);
    }
  }

  // --- their bodies ------------------------------------------------------

  lemma PropCellsBack(v: Version, cs: seq<Cell>)
    requires RowSound(PropTypes(v), cs)
    ensures PropCells(v, PropsAt(v, cs, 0)) == cs
  {
    if v.V5? {
      assert CellSound(PropTypes(v)[0], cs[0]);
    }
  }

  lemma IdCellsBack(v: Version, cs: seq<Cell>)
    requires RowSound(IdTypes(v), cs)
    ensures IdCells(v, NumAt(cs, 0), PropsAt(v, cs, 1)) == cs
  {
    assert CellSound(IdTypes(v)[0], cs[0]);
    if v.V5? {
      assert CellSound(IdTypes(v)[1], cs[1]);
    }
  }

  lemma PublishCellsBack(p: Packet, v: Version, cs: seq<Cell>)
    requires p.Publish? && RowSound(PublishTypes(p.qos, v), cs)
    requires p.topic == TextAt(cs, 0) && p.properties == PropsAt(v, cs, |cs| - 1)
    requires p.id == if p.qos.AtMostOnce? then None else Some(NumAt(cs, 1))
    ensures PublishCells(p, v) == cs
  {
    var ts := PublishTypes(p.qos, v);
    assert CellSound(ts[0], cs[0]);
    if |ts| > 1 {
      assert CellSound(ts[1], cs[1]);
    }
    if |ts| > 2 {
      assert CellSound(ts[2], cs[2]);
    }
  }

  lemma ConnAckLength(s: Bytes, v: Version)
    requires DecodeConnAck(s, v).Done? && TidyBody(KConnAck, 0, s, v)
    ensures |BodyOf(DecodeConnAck(s, v).value, v)| <= |s|
  {
    RowReads(PropTypes(v), s[2..]);
    RowLength(PropTypes(v), s[2..]);
    PropCellsBack(v, ReadRow(PropTypes(v), s[2..]).value);
  }

  lemma PublishLength(s: Bytes, flags: nat, v: Version)
    requires DecodePublish(s, flags, v).Done? && TidyPublish(s, flags, v)
    ensures |BodyOf(DecodePublish(s, flags, v).value, v)| <= |s|
  {
    var p := DecodePublish(s, flags, v).value;
    var ts := PublishTypes(p.qos, v);
    RowReads(ts, s);
    RowLength(ts, s);
    PublishCellsBack(p, v, ReadRow(ts, s).value);
  }

  lemma ReasonLength(s: Bytes)
    requires ReadReasonProps(s).Done? && TidyReason(s)
    ensures |PutReasonProps(ReadReasonProps(s).value.0, ReadReasonProps(s).value.1)| <= |s|
  {
    if |s| > 1 {
      BlockNeverGrows(s[1..]);
    }
  }

  lemma AckLength(kind: AckKind, s: Bytes, v: Version)
    requires DecodeAck(kind, s, v).Done? && TidyBody(KAck(kind), 0, s, v)
    ensures |BodyOf(DecodeAck(kind, s, v).value, v)| <= |s|
  {
    if v.V5? {
      ReasonLength(s[2..]);
    }
  }

  /** The row with the packet identifier, for the four packets that start with it. */
  function IdRow(s: Bytes, v: Version): Bytes
    requires ReadRow(IdTypes(v), s).Ok?
  {
    var cs := ReadRow(IdTypes(v), s).value;
    PutRow(IdTypes(v), IdCells(v, NumAt(cs, 0), PropsAt(v, cs, 1)))
  }

  lemma IdLength(s: Bytes, v: Version)
    requires ReadRow(IdTypes(v), s).Ok? && TidyRow(IdTypes(v), s)
    ensures |IdRow(s, v)| <= |s| - |ReadRow(IdTypes(v), s).rest|
  {
    RowReads(IdTypes(v), s);
    RowLength(IdTypes(v), s);
    IdCellsBack(v, ReadRow(IdTypes(v), s).value);
  }

  lemma SubscribeIs(s: Bytes, v: Version)
    requires DecodeSubscribe(s, v).Done?
    ensures ReadRow(IdTypes(v), s).Ok?
    ensures var more := ReadRow(IdTypes(v), s).rest;
      ReadTopics(v, more).Ok? && BodyOf(DecodeSubscribe(s, v).value, v) == IdRow(s, v) + PutTopics(v, ReadTopics(v, more).value)
  {
  }

  lemma SubscribeLength(s: Bytes, v: Version, body: Bytes)
    requires DecodeSubscribe(s, v).Done? && TidyRow(IdTypes(v), s) && body == BodyOf(DecodeSubscribe(s, v).value, v)
    ensures |body| <= |s|
  {
    SubscribeIs(s, v);
    IdLength(s, v);
    TopicsLength(v, ReadRow(IdTypes(v), s).rest);
  }

  lemma SubAckIs(s: Bytes, v: Version)
    requires DecodeSubAck(s, v).Done?
    ensures ReadRow(IdTypes(v), s).Ok?
    ensures var more := ReadRow(IdTypes(v), s).rest;
      if v.V5? then ReadReasons(more).Ok? && BodyOf(DecodeSubAck(s, v).value, v) == IdRow(s, v) + PutAll(PutByte, ReadReasons(more).value)
      else ReadCodes(more).Ok? && BodyOf(DecodeSubAck(s, v).value, v) == IdRow(s, v) + PutAll(PutCode, ReadCodes(more).value)
  {
  }

  lemma SubAckLength(s: Bytes, v: Version, body: Bytes)
    requires DecodeSubAck(s, v).Done? && TidyRow(IdTypes(v), s) && body == BodyOf(DecodeSubAck(s, v).value, v)
    ensures |body| <= |s|
  {
    SubAckIs(s, v);
    IdLength(s, v);
    ReasonsLength(ReadRow(IdTypes(v), s).rest);
  }

  lemma UnsubscribeIs(s: Bytes, v: Version)
    requires DecodeUnsubscribe(s, v).Done?
    ensures ReadRow(IdTypes(v), s).Ok?
    ensures var more := ReadRow(IdTypes(v), s).rest;
      ReadFilters(more).Ok? && BodyOf(DecodeUnsubscribe(s, v).value, v) == IdRow(s, v) + PutAll(PutBin, ReadFilters(more).value)
  {
  }

  lemma UnsubscribeLength(s: Bytes, v: Version, body: Bytes)
    requires DecodeUnsubscribe(s, v).Done? && TidyRow(IdTypes(v), s) && body == BodyOf(DecodeUnsubscribe(s, v).value, v)
    ensures |body| <= |s|
  {
    UnsubscribeIs(s, v);
    IdLength(s, v);
    FiltersLength(ReadRow(IdTypes(v), s).rest);
  }

  lemma UnsubAckValue(s: Bytes, v: Version)
    requires v.V5? && DecodeUnsubAck(s, v).Done?
    ensures ReadRow(IdTypes(v), s).Ok? && ReadReasons(ReadRow(IdTypes(v), s).rest).Ok?
    ensures var cs := ReadRow(IdTypes(v), s).value;
      var rs := ReadReasons(ReadRow(IdTypes(v), s).rest).value;
      DecodeUnsubAck(s, v).value == UnsubAck(NumAt(cs, 0), Some(rs), PropsAt(v, cs, 1))
  {
  }

  lemma UnsubAckBody(n: nat, rs: seq<byte>, props: Option<Properties>, v: Version)
    requires v.V5?
    ensures BodyOf(UnsubAck(n, Some(rs), props), v) == PutRow(IdTypes(v), IdCells(v, n, props)) + PutAll(PutByte, rs)
  {
  }

  lemma UnsubAckIs(s: Bytes, v: Version)
    requires v.V5? && DecodeUnsubAck(s, v).Done?
    ensures ReadRow(IdTypes(v), s).Ok?
    ensures var more := ReadRow(IdTypes(v), s).rest;
      ReadReasons(more).Ok? && |BodyOf(DecodeUnsubAck(s, v).value, v)| == |IdRow(s, v)| + |PutAll(PutByte, ReadReasons(more).value)|
  {
    var cs := ReadRow(IdTypes(v), s).value;
    UnsubAckValue(s, v);
    UnsubAckBody(NumAt(cs, 0), ReadReasons(ReadRow(IdTypes(v), s).rest).value, PropsAt(v, cs, 1), v);
  }

  lemma UnsubAckLength(s: Bytes, v: Version, body: Bytes)
    requires DecodeUnsubAck(s, v).Done? && TidyBody(KUnsubAck, 0, s, v) && body == BodyOf(DecodeUnsubAck(s, v).value, v)
    ensures |body| <= |s|
  {
    if v.V5? {
      UnsubAckIs(s, v);
      IdLength(s, v);
      ReasonsLength(ReadRow(IdTypes(v), s).rest);
    }
  }

  // --- CONNECT -----------------------------------------------------------

  /** Numbers have the width of their type, so another number changes no length. */
  lemma FlagsLength(ts: seq<Type>, cs: seq<Cell>, n: nat)
    requires ts != [] && ts[0] == TU8 && cs != []
    ensures |PutRow(ts, [CNum(n)] + cs[1..])| == |PutRow(ts, cs)|
  {
    RowCons(ts, CNum(n), cs[1..]);
  }

  lemma HeadCellsBack(v: Version, cs: seq<Cell>, flags: nat)
    requires RowSound(HeadTypes(v), cs)
    ensures HeadCells(v, flags, NumAt(cs, 1), PropsAt(v, cs, 2), TextAt(cs, |cs| - 1)) == [CNum(flags)] + cs[1..]
  {
    var ts := HeadTypes(v);
    assert CellSound(ts[1], cs[1]) && CellSound(ts[2], cs[2]);
    if v.V5? {
      assert CellSound(ts[3], cs[3]);
    }
  }

  lemma HeadLength(v: Version, s: Bytes, flags: nat)
    requires ReadRow(HeadTypes(v), s).Ok? && TidyRow(HeadTypes(v), s)
    ensures var r := ReadRow(HeadTypes(v), s);
      var cs := r.value;
      |PutRow(HeadTypes(v), HeadCells(v, flags, NumAt(cs, 1), PropsAt(v, cs, 2), TextAt(cs, |cs| - 1)))| <= |s| - |r.rest|
  {
    var cs := ReadRow(HeadTypes(v), s).value;
    RowReads(HeadTypes(v), s);
    RowLength(HeadTypes(v), s);
    HeadCellsBack(v, cs, flags);
    FlagsLength(HeadTypes(v), cs, flags);
  }

  lemma WillCellsBack(v: Version, will: Option<Will>, user: bool, pass: bool, cs: seq<Cell>)
    requires RowSound(TailTypes(v, will.Some?, user, pass), cs)
    requires var w := WillWidth(v, will.Some?);
      will.Some? ==> will.value.topic == TextAt(cs, w - 2) && will.value.payload == TextAt(cs, w - 1) && will.value.properties == PropsAt(v, cs, 0)
    ensures WillCells(v, will) == cs[..WillWidth(v, will.Some?)]
  {
    var ts := TailTypes(v, will.Some?, user, pass);
    if will.Some? {
      assert CellSound(ts[0], cs[0]) && CellSound(ts[1], cs[1]);
      if v.V5? {
        assert CellSound(ts[2], cs[2]);
      }
    }
  }

  lemma LoginCellsBack(v: Version, will: bool, user: Option<Bytes>, pass: Option<Bytes>, cs: seq<Cell>)
    requires RowSound(TailTypes(v, will, user.Some?, pass.Some?), cs)
    requires user.Some? ==> user.value == TextAt(cs, WillWidth(v, will))
    requires pass.Some? ==> pass.value == TextAt(cs, WillWidth(v, will) + Bit(user.Some?))
    ensures TextCells(user) + TextCells(pass) == cs[WillWidth(v, will)..]
  {
    var ts, w := TailTypes(v, will, user.Some?, pass.Some?), WillWidth(v, will);
    assert |ts| == w + Bit(user.Some?) + Bit(pass.Some?);
    if user.Some? {
      assert ts[w] == TStr && CellSound(ts[w], cs[w]);
    }
    if pass.Some? {
      var i := w + Bit(user.Some?);
      assert ts[i] == TBin && CellSound(ts[i], cs[i]);
    }
  }

  lemma Rejoined(cs: seq<Cell>, n: nat)
    requires n <= |cs|
    ensures cs[..n] + cs[n..] == cs
  {
  }

  lemma TailCellsBack(p: Packet, flags: nat, q: QoS, keep: nat, props: Option<Properties>, id: Bytes, cs: seq<Cell>)
    requires p.Connect? && RowSound(TailTypes(p.protocol, HasWill(flags), HasUser(flags), HasPass(flags)), cs)
    requires p == TailPacket(p.protocol, flags, q, keep, props, id, cs)
    ensures TailCells(p.protocol, p.will, p.username, p.password) == cs
  {
    WillCellsBack(p.protocol, p.will, p.username.Some?, p.password.Some?, cs);
    LoginCellsBack(p.protocol, p.will.Some?, p.username, p.password, cs);
    Rejoined(cs, WillWidth(p.protocol, p.will.Some?));
  }

  lemma TailLength(v: Version, flags: nat, q: QoS, keep: nat, props: Option<Properties>, id: Bytes, s: Bytes)
    requires var ts := TailTypes(v, HasWill(flags), HasUser(flags), HasPass(flags)); ReadRow(ts, s).Ok? && TidyRow(ts, s)
    ensures var p := DecodeTail(v, flags, q, keep, props, id, s).value;
      && p.Connect? && p.protocol == v && p.keepAlive == keep && p.properties == props && p.clientId == id
      && |PutRow(TailTypes(v, p.will.Some?, p.username.Some?, p.password.Some?), TailCells(v, p.will, p.username, p.password))| <= |s|
  {
    var ts := TailTypes(v, HasWill(flags), HasUser(flags), HasPass(flags));
    RowReads(ts, s);
    RowLength(ts, s);
    TailCellsBack(DecodeTail(v, flags, q, keep, props, id, s).value, flags, q, keep, props, id, ReadRow(ts, s).value);
  }

  /** What comes behind the protocol name and level. */
  function HeadAndTail(p: Packet): Bytes
    requires p.Connect?
  {
    var flags := ConnectFlags(p.cleanSession, p.will, p.username.Some?, p.password.Some?);
    PutRow(HeadTypes(p.protocol), HeadCells(p.protocol, flags, p.keepAlive, p.properties, p.clientId)) +
    PutRow(TailTypes(p.protocol, p.will.Some?, p.username.Some?, p.password.Some?),
           TailCells(p.protocol, p.will, p.username, p.password))
  }

  lemma HeadAndTailLength(v: Version, s: Bytes)
    requires DecodeHead(v, s).Done? && TidyHead(v, s)
    ensures DecodeHead(v, s).value.Connect? && |HeadAndTail(DecodeHead(v, s).value)| <= |s|
  {
    var r := ReadRow(HeadTypes(v), s);
    var cs := r.value;
    var flags := NumAt(cs, 0);
    var q := QosOf((flags / 8) % 4).value;
    TailLength(v, flags, q, NumAt(cs, 1), PropsAt(v, cs, 2), TextAt(cs, |cs| - 1), r.rest);
    var p := DecodeHead(v, s).value;
    HeadLength(v, s, ConnectFlags(p.cleanSession, p.will, p.username.Some?, p.password.Some?));
  }

  lemma NameLength(s: Bytes)
    requires ReadRow([TStr], s).Ok? && TextAt(ReadRow([TStr], s).value, 0) == MQTT
    ensures |s| - |ReadRow([TStr], s).rest| == 6 == |PutRow([TStr], [CText(MQTT)])|
  {
    BinRead(s);
    assert [TStr][1..] == [];
    RowCons([TStr], CText(MQTT), []);
  }

  lemma LevelLength(s: Bytes, n: nat)
    requires ReadRow([TU8], s).Ok?
    ensures |s| - |ReadRow([TU8], s).rest| == 1 == |PutRow([TU8], [CNum(n)])|
  {
    assert [TU8][1..] == [];
    RowCons([TU8], CNum(n), []);
  }

  lemma ConnectLength(s: Bytes)
    requires DecodeConnect(s).Done? && TidyConnect(s)
    ensures DecodeConnect(s).value.Connect? && |ConnectBody(DecodeConnect(s).value)| <= |s|
  {
    var name := ReadRow([TStr], s);
    var level := ReadRow([TU8], name.rest);
    var p := DecodeConnect(s).value;
    NameLength(s);
    HeadAndTailLength(if NumAt(level.value, 0) == 5 then V5 else V311, level.rest);
    LevelLength(name.rest, Level(p.protocol));
  }

  // --- whole packets -----------------------------------------------------

  /** The body of a packet that was read is written in no more octets when every block ends as announced. */
  lemma BodyLength(k: PacketKind, flags: nat, s: Bytes, v: Version)
    requires DecodeAs(k, flags, s, v).Done? && TidyBody(k, flags, s, v)
    ensures |BodyOf(DecodeAs(k, flags, s, v).value, v)| <= |s|
  {
    match k
    case KConnect => ConnectLength(s);
    case KConnAck => ConnAckLength(s, v);
    case KPublish => PublishLength(s, flags, v);
    case KAck(a) => AckLength(a, s, v);
    case KSubscribe => SubscribeLength(s, v, BodyOf(DecodeSubscribe(s, v).value, v));
    case KSubAck => SubAckLength(s, v, BodyOf(DecodeSubAck(s, v).value, v));
    case KUnsubscribe => UnsubscribeLength(s, v, BodyOf(DecodeUnsubscribe(s, v).value, v));
    case KUnsubAck => UnsubAckLength(s, v, BodyOf(DecodeUnsubAck(s, v).value, v));
    case KPingReq =>
    case KPingResp =>
    case KDisconnect =>
      if v.V5? {
        ReasonLength(s);
      }
    case KAuth => ReasonLength(s);
  }

  lemma FrameLength(s: Bytes, b: Bytes)
    requires Frame(s).Framed? && |b| <= |Frame(s).body|
    ensures |Frame(s).body| <= VARINT_MAX && |PutFrame(0, b)| <= Frame(s).total
  {
    var len := ReadVar(s[1..]);
    VarRange(s[1..]);
    VarRead(s[1..]);
    ShorterPrefix(b, len.value, |s[1..]| - |len.rest|);
  }

  lemma DecodedBody(s: Bytes, v: Version)
    requires Decode(s, v).One? && Tidy(s, v)
    ensures Frame(s).Framed? && Decode(s, v).total == Frame(s).total
    ensures |BodyOf(Decode(s, v).packet, v)| <= |Frame(s).body|
  {
    var f := Frame(s);
    BodyLength(KindFor(f.first / 16, f.first % 16).value, f.first % 16, f.body, v);
  }

  lemma EncodeLength(p: Packet, v: Version)
    ensures |Encode(p, v)| == |PutFrame(0, BodyOf(p, v))|
  {
  }

  /**
   * A packet whose property blocks all end as announced can be written again, in no more octets than
   * were read, and reads back as the same packet exactly when it does not spell out an empty block.
   */
  lemma TidyReadAgain(s: Bytes, v: Version, t: Bytes)
    requires Decode(s, v).One? && Tidy(s, v)
    ensures var p := Decode(s, v).packet;
      && Encodable(p, v) && |Encode(p, v)| <= Decode(s, v).total
      && (Decode(Encode(p, v) + t, v) == One(p, |Encode(p, v)|) <==> !Blank(p))
  {
    var p := Decode(s, v).packet;
    DecodedBody(s, v);
    FrameLength(s, BodyOf(p, v));
    EncodeLength(p, v);
    ReadAgain(s, v, t);
  }
}
