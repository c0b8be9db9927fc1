/** MQTT control packets of versions 3.1.1 and 5: how each is written to a frame and read from one. */
module MqttPackets {
  import opened Common
  import opened Parsing
  import opened MqttWire

  datatype Version = V311 | V5

  datatype QoS = AtMostOnce | AtLeastOnce | ExactlyOnce

  datatype SubAckCode = Qos0 | Qos1 | Qos2 | Failure

  datatype RetainHandling = SendAtSubscribe | SendIfNewSubscription | DoNotSend

  datatype SubscribeTopic = SubscribeTopic(filter: Bytes, qos: QoS, noLocal: bool, retainAsPublished: bool,
                                           retainHandling: RetainHandling)

  datatype Will = Will(topic: Bytes, payload: Bytes, qos: QoS, retain: bool, properties: Option<Properties>)

  datatype AckKind = PubAck | PubRec | PubRel | PubComp

  /** Reason codes are kept as their wire values. */
  datatype Packet =
    | Connect(protocol: Version, clientId: Bytes, keepAlive: nat, cleanSession: bool, will: Option<Will>,
              username: Option<Bytes>, password: Option<Bytes>, properties: Option<Properties>)
    | ConnAck(sessionPresent: bool, code: byte, properties: Option<Properties>)
    | Publish(dup: bool, qos: QoS, retain: bool, topic: Bytes, id: Option<nat>, payload: Bytes,
              properties: Option<Properties>)
    | Ack(kind: AckKind, packetId: nat, reason: byte, properties: Option<Properties>)
    | Subscribe(packetId: nat, topics: seq<SubscribeTopic>, properties: Option<Properties>)
    | SubAck(packetId: nat, codes: seq<SubAckCode>, reasons: Option<seq<byte>>, properties: Option<Properties>)
    | Unsubscribe(packetId: nat, filters: seq<Bytes>, properties: Option<Properties>)
    | UnsubAck(packetId: nat, reasons: Option<seq<byte>>, properties: Option<Properties>)
    | PingReq
    | PingResp
    | Disconnect(reason: byte, properties: Option<Properties>)
    | Auth(reason: byte, properties: Option<Properties>)

  // --- code tables -------------------------------------------------------

  function Bit(b: bool): nat { if b then 1 else 0 }

  function QosBits(q: QoS): nat {
    match q
    case AtMostOnce => 0
    case AtLeastOnce => 1
    case ExactlyOnce => 2
  }

  function QosOf(n: nat): Option<QoS> {
    if n == 0 then Some(AtMostOnce) else if n == 1 then Some(AtLeastOnce) else if n == 2 then Some(ExactlyOnce) else None
  }

  function HandlingBits(h: RetainHandling): nat {
    match h
    case SendAtSubscribe => 0
    case SendIfNewSubscription => 1
    case DoNotSend => 2
  }

  function HandlingOf(n: nat): Option<RetainHandling> {
    if n == 0 then Some(SendAtSubscribe) else if n == 1 then Some(SendIfNewSubscription)
    else if n == 2 then Some(DoNotSend) else None
  }

  predicate IsReason(b: byte) {
    b <= 2 || b == 4 || b == 0x10 || b == 0x11 || b == 0x18 || b == 0x19 || 0x80 <= b <= 0xA2
  }

  function CodeByte(c: SubAckCode): byte {
    match c
    case Qos0 => 0
    case Qos1 => 1
    case Qos2 => 2
    case Failure => 0x80
  }

  function CodeOf(b: byte): SubAckCode {
    if b == 0 then Qos0 else if b == 1 then Qos1 else if b == 2 then Qos2 else Failure
  }

  /** The reason a version 5 peer is given for a 3.1.1 code; the wire values coincide. */
  function ReasonFor(c: SubAckCode): byte { CodeByte(c) }

  // --- rows --------------------------------------------------------------

  function OrNone(p: Option<Properties>): Properties { if p.Some? then p.value else NO_PROPERTIES }

  function PropTypes(v: Version): seq<Type> { if v.V5? then [TProps] else [] }

  function PropCells(v: Version, p: Option<Properties>): seq<Cell> { if v.V5? then [CProps(OrNone(p))] else [] }

  function NumAt(cs: seq<Cell>, i: int): nat { if 0 <= i < |cs| && cs[i].CNum? then cs[i].n else 0 }

  function TextAt(cs: seq<Cell>, i: int): Bytes { if 0 <= i < |cs| && cs[i].CText? then cs[i].s else [] }

  function PropsAt(v: Version, cs: seq<Cell>, i: int): Option<Properties> {
    if v.V5? && 0 <= i < |cs| && cs[i].CProps? then Some(cs[i].p) else None
  }

  datatype Decoded<+T> = Done(value: T) | Bad(error: Error)

  // --- CONNECT -----------------------------------------------------------

  const MQTT: Bytes := [77, 81, 84, 84]

  function Level(v: Version): nat { if v.V5? then 5 else 4 }

  function ConnectFlags(clean: bool, will: Option<Will>, user: bool, pass: bool): nat {
    2 * Bit(clean) + 64 * Bit(pass) + 128 * Bit(user) +
    (if will.Some? then 4 + 8 * QosBits(will.value.qos) + 32 * Bit(will.value.retain) else 0)
  }

  function HeadTypes(v: Version): seq<Type> { [TU8, TU16] + (PropTypes(v) + [TStr]) }

  function HeadCells(v: Version, flags: nat, keepAlive: nat, p: Option<Properties>, id: Bytes): seq<Cell> {
    [CNum(flags), CNum(keepAlive)] + (PropCells(v, p) + [CText(id)])
  }

  function TailTypes(v: Version, will: bool, user: bool, pass: bool): seq<Type> {
    (if will then PropTypes(v) + [TStr, TBin] else []) + ((if user then [TStr] else []) + (if pass then [TBin] else []))
  }

  function WillCells(v: Version, will: Option<Will>): seq<Cell> {
    if will.Some? then PropCells(v, will.value.properties) + [CText(will.value.topic), CText(will.value.payload)] else []
  }

  function TextCells(t: Option<Bytes>): seq<Cell> { if t.Some? then [CText(t.value)] else [] }

  function TailCells(v: Version, will: Option<Will>, user: Option<Bytes>, pass: Option<Bytes>): seq<Cell> {
    WillCells(v, will) + (TextCells(user) + TextCells(pass))
  }

  function ConnectBody(p: Packet): Bytes
    requires p.Connect?
  {
    var v := p.protocol;
    var flags := ConnectFlags(p.cleanSession, p.will, p.username.Some?, p.password.Some?);
    PutRow([TStr], [CText(MQTT)]) + (PutRow([TU8], [CNum(Level(v))]) +
      (PutRow(HeadTypes(v), HeadCells(v, flags, p.keepAlive, p.properties, p.clientId)) +
       PutRow(TailTypes(v, p.will.Some?, p.username.Some?, p.password.Some?),
              TailCells(v, p.will, p.username, p.password))))
  }

  function WillWidth(v: Version, will: bool): nat { if !will then 0 else if v.V5? then 3 else 2 }

  predicate HasWill(flags: nat) { (flags / 4) % 2 == 1 }

  predicate HasPass(flags: nat) { (flags / 64) % 2 == 1 }

  predicate HasUser(flags: nat) { (flags / 128) % 2 == 1 }

  function TailPacket(v: Version, flags: nat, q: QoS, keepAlive: nat, p: Option<Properties>, id: Bytes, cs: seq<Cell>): Packet {
    var w := WillWidth(v, HasWill(flags));
    Connect(v, id, keepAlive, (flags / 2) % 2 == 1,
            if HasWill(flags) then Some(Will(TextAt(cs, w - 2), TextAt(cs, w - 1), q, (flags / 32) % 2 == 1, PropsAt(v, cs, 0))) else None,
            if HasUser(flags) then Some(TextAt(cs, w)) else None,
            if HasPass(flags) then Some(TextAt(cs, w + Bit(HasUser(flags)))) else None, p)
  }

  function DecodeTail(v: Version, flags: nat, q: QoS, keepAlive: nat, p: Option<Properties>, id: Bytes, s: Bytes): Decoded<Packet> {
    match ReadRow(TailTypes(v, HasWill(flags), HasUser(flags), HasPass(flags)), s)
    case Fail(e) => Bad(e)
    case Ok(cs, _) => Done(TailPacket(v, flags, q, keepAlive, p, id, cs))
  }

  function DecodeHead(v: Version, s: Bytes): Decoded<Packet> {
    match ReadRow(HeadTypes(v), s)
    case Fail(e) => Bad(e)
    case Ok(cs, rest) =>
      var flags := NumAt(cs, 0);
      match QosOf((flags / 8) % 4)
      case None => Bad(Malformed)
      case Some(q) => DecodeTail(v, flags, q, NumAt(cs, 1), PropsAt(v, cs, 2), TextAt(cs, |cs| - 1), rest)
  }

  function DecodeLevel(s: Bytes): Decoded<Packet> {
    match ReadRow([TU8], s)
    case Fail(e) => Bad(e)
    case Ok(cs, rest) =>
      if NumAt(cs, 0) == 4 then DecodeHead(V311, rest)
      else if NumAt(cs, 0) == 5 then DecodeHead(V5, rest) else Bad(Malformed)
  }

  function DecodeConnect(s: Bytes): Decoded<Packet> {
    match ReadRow([TStr], s)
    case Fail(e) => Bad(e)
    case Ok(cs, rest) => if TextAt(cs, 0) != MQTT then Bad(Malformed) else DecodeLevel(rest)
  }

  // --- CONNACK, PUBLISH, acknowledgements --------------------------------

  function DecodeConnAck(s: Bytes, v: Version): Decoded<Packet> {
    if |s| < 2 then Bad(Malformed)
    else
      match ReadRow(PropTypes(v), s[2..])
      case Fail(e) => Bad(e)
      case Ok(cs, _) => Done(ConnAck(s[0] % 2 == 1, s[1], PropsAt(v, cs, 0)))
  }

  function PublishFlags(p: Packet): nat
    requires p.Publish?
  {
    8 * Bit(p.dup) + 2 * QosBits(p.qos) + Bit(p.retain)
  }

  function PublishTypes(q: QoS, v: Version): seq<Type> {
    [TStr] + ((if q.AtMostOnce? then [] else [TU16]) + PropTypes(v))
  }

  function PublishCells(p: Packet, v: Version): seq<Cell>
    requires p.Publish?
  {
    [CText(p.topic)] +
    ((if p.qos.AtMostOnce? then [] else [CNum(if p.id.Some? then p.id.value else 0)]) + PropCells(v, p.properties))
  }

  function DecodePublish(s: Bytes, flags: nat, v: Version): Decoded<Packet> {
    match QosOf((flags / 2) % 4)
    case None => Bad(Malformed)
    case Some(q) =>
      match ReadRow(PublishTypes(q, v), s)
      case Fail(e) => Bad(e)
      case Ok(cs, rest) =>
        if v.V311? && TextAt(cs, 0) == [] then Bad(Malformed)
        else Done(Publish((flags / 8) % 2 == 1, q, flags % 2 == 1, TextAt(cs, 0),
                          if q.AtMostOnce? then None else Some(NumAt(cs, 1)), rest, PropsAt(v, cs, |cs| - 1)))
  }

  /** Properties are written here only when there are some. */
  function Worth(p: Option<Properties>): Option<Properties> { if p == Some(NO_PROPERTIES) then None else p }

  function PutReasonProps(reason: byte, p: Option<Properties>): Bytes {
    if Worth(p).Some? then [reason] + PutProps(p.value) else if reason == 0 then [] else [reason]
  }

  function ReadReasonProps(s: Bytes): Decoded<(byte, Option<Properties>)> {
    if s == [] then Done((0, None))
    else if !IsReason(s[0]) then Bad(Malformed)
    else if s[1..] == [] then Done((s[0], None))
    else
      match ReadProps(s[1..])
      case Fail(e) => Bad(e)
      case Ok(p, _) => Done((s[0], Some(p)))
  }

  function DecodeAck(kind: AckKind, s: Bytes, v: Version): Decoded<Packet> {
    if v.V311? then if |s| < 2 then Bad(Malformed) else Done(Ack(kind, ReadU16(s).value, 0, None))
    else
      match ReadU16(s)
      case Fail(e) => Bad(e)
      case Ok(n, rest) =>
        match ReadReasonProps(rest)
        case Bad(e) => Bad(e)
        case Done((reason, p)) => Done(Ack(kind, n, reason, p))
  }

  // --- SUBSCRIBE, SUBACK, UNSUBSCRIBE, UNSUBACK --------------------------

  function IdTypes(v: Version): seq<Type> { [TU16] + PropTypes(v) }

  function IdCells(v: Version, n: nat, p: Option<Properties>): seq<Cell> { [CNum(n)] + PropCells(v, p) }

  function Options311(t: SubscribeTopic): nat { QosBits(t.qos) }

  function Options5(t: SubscribeTopic): nat {
    QosBits(t.qos) + 4 * Bit(t.noLocal) + 8 * Bit(t.retainAsPublished) + 16 * HandlingBits(t.retainHandling)
  }

  function PutTopic311(t: SubscribeTopic): Bytes { PutRow([TStr, TU8], [CText(t.filter), CNum(Options311(t))]) }

  function PutTopic5(t: SubscribeTopic): Bytes { PutRow([TStr, TU8], [CText(t.filter), CNum(Options5(t))]) }

  function Topic311(filter: Bytes, opts: nat): Option<SubscribeTopic> {
    match QosOf(opts % 4)
    case None => None
    case Some(q) => Some(SubscribeTopic(filter, q, false, false, SendAtSubscribe))
  }

  function Topic5(filter: Bytes, opts: nat): Option<SubscribeTopic> {
    if QosOf(opts % 4).None? || HandlingOf((opts / 16) % 4).None? then None
    else Some(SubscribeTopic(filter, QosOf(opts % 4).value, (opts / 4) % 2 == 1, (opts / 8) % 2 == 1,
                             HandlingOf((opts / 16) % 4).value))
  }

  function Checked<T>(t: Option<T>, rest: Bytes): Read<T> { if t.None? then Fail(Malformed) else Ok(t.value, rest) }

  function ReadTopic311(s: Bytes): Read<SubscribeTopic> {
    match ReadRow([TStr, TU8], s)
    case Fail(e) => Fail(e)
    case Ok(cs, rest) => Checked(Topic311(TextAt(cs, 0), NumAt(cs, 1)), rest)
  }

  function ReadTopic5(s: Bytes): Read<SubscribeTopic> {
    match ReadRow([TStr, TU8], s)
    case Fail(e) => Fail(e)
    case Ok(cs, rest) => Checked(Topic5(TextAt(cs, 0), NumAt(cs, 1)), rest)
  }

  function PutTopics(v: Version, ts: seq<SubscribeTopic>): Bytes {
    if v.V5? then PutAll(PutTopic5, ts) else PutAll(PutTopic311, ts)
  }

  /** Filters while at least three octets are left. */
  function ReadTopics(v: Version, s: Bytes): Read<seq<SubscribeTopic>> {
    if v.V5? then ReadMany(ReadTopic5, s, 2) else ReadMany(ReadTopic311, s, 2)
  }

  function DecodeSubscribe(s: Bytes, v: Version): Decoded<Packet> {
    match ReadRow(IdTypes(v), s)
    case Fail(e) => Bad(e)
    case Ok(cs, more) =>
      match ReadTopics(v, more)
      case Fail(e) => Bad(e)
      case Ok(ts, _) => if ts == [] then Bad(Malformed) else Done(Subscribe(NumAt(cs, 0), ts, PropsAt(v, cs, 1)))
  }

  function PutByte(b: byte): Bytes { [b] }

  function PutCode(c: SubAckCode): Bytes { [CodeByte(c)] }

  function ReadReason(s: Bytes): Read<byte> {
    if s == [] then Fail(Incomplete) else if IsReason(s[0]) then Ok(s[0], s[1..]) else Fail(Malformed)
  }

  function ReadCode(s: Bytes): Read<SubAckCode> { if s == [] then Fail(Incomplete) else Ok(CodeOf(s[0]), s[1..]) }

  function ReadReasons(s: Bytes): Read<seq<byte>> { ReadMany(ReadReason, s, 0) }

  function ReadCodes(s: Bytes): Read<seq<SubAckCode>> { ReadMany(ReadCode, s, 0) }

  function Codes(rs: seq<byte>): seq<SubAckCode> { if rs == [] then [] else [CodeOf(rs[0])] + Codes(rs[1..]) }

  function Reasons(cs: seq<SubAckCode>): seq<byte> { if cs == [] then [] else [ReasonFor(cs[0])] + Reasons(cs[1..]) }

  function DecodeSubAck(s: Bytes, v: Version): Decoded<Packet> {
    match ReadRow(IdTypes(v), s)
    case Fail(e) => Bad(e)
    case Ok(cs, more) =>
      if v.V5? then
        match ReadReasons(more)
        case Fail(e) => Bad(e)
        case Ok(rs, _) => Done(SubAck(NumAt(cs, 0), Codes(rs), Some(rs), PropsAt(v, cs, 1)))
      else
        match ReadCodes(more)
        case Fail(e) => Bad(e)
        case Ok(codes, _) => Done(SubAck(NumAt(cs, 0), codes, None, None))
  }

  /** Filters while at least two octets are left. */
  function ReadFilters(s: Bytes): Read<seq<Bytes>> { ReadMany(ReadStr, s, 1) }

  function DecodeUnsubscribe(s: Bytes, v: Version): Decoded<Packet> {
    match ReadRow(IdTypes(v), s)
    case Fail(e) => Bad(e)
    case Ok(cs, more) =>
      match ReadFilters(more)
      case Fail(e) => Bad(e)
      case Ok(fs, _) => Done(Unsubscribe(NumAt(cs, 0), fs, PropsAt(v, cs, 1)))
  }

  function DecodeUnsubAck(s: Bytes, v: Version): Decoded<Packet> {
    if v.V311? then if |s| < 2 then Bad(Malformed) else Done(UnsubAck(ReadU16(s).value, None, None))
    else
      match ReadRow(IdTypes(v), s)
      case Fail(e) => Bad(e)
      case Ok(cs, more) =>
        match ReadReasons(more)
        case Fail(e) => Bad(e)
        case Ok(rs, _) => Done(UnsubAck(NumAt(cs, 0), Some(rs), PropsAt(v, cs, 1)))
  }

  // --- DISCONNECT, AUTH --------------------------------------------------

  function DecodeDisconnect(s: Bytes, v: Version): Decoded<Packet> {
    if v.V311? then Done(Disconnect(0, None))
    else
      match ReadReasonProps(s)
      case Bad(e) => Bad(e)
      case Done((reason, p)) => Done(Disconnect(reason, p))
  }

  function DecodeAuth(s: Bytes): Decoded<Packet> {
    match ReadReasonProps(s)
    case Bad(e) => Bad(e)
    case Done((reason, p)) => Done(Auth(reason, p))
  }

  // --- whole packets -----------------------------------------------------

  function AckType(k: AckKind): nat {
    match k
    case PubAck => 4
    case PubRec => 5
    case PubRel => 6
    case PubComp => 7
  }

  function TypeOf(p: Packet): nat {
    match p
    case Connect(_, _, _, _, _, _, _, _) => 1
    case ConnAck(_, _, _) => 2
    case Publish(_, _, _, _, _, _, _) => 3
    case Ack(k, _, _, _) => AckType(k)
    case Subscribe(_, _, _) => 8
    case SubAck(_, _, _, _) => 9
    case Unsubscribe(_, _, _) => 10
    case UnsubAck(_, _, _) => 11
    case PingReq => 12
    case PingResp => 13
    case Disconnect(_, _) => 14
    case Auth(_, _) => 15
  }

  function FlagsOf(p: Packet): nat {
    match p
    case Publish(_, _, _, _, _, _, _) => PublishFlags(p)
    case Ack(k, _, _, _) => if k.PubRel? then 2 else 0
    case Subscribe(_, _, _) => 2
    case Unsubscribe(_, _, _) => 2
    case _ => 0
  }

  function BodyOf(p: Packet, v: Version): Bytes {
    match p
    case Connect(_, _, _, _, _, _, _, _) => ConnectBody(p)
    case ConnAck(session, code, props) => [Bit(session), code] + PutRow(PropTypes(v), PropCells(v, props))
    case Publish(_, q, _, _, _, payload, _) => PutRow(PublishTypes(q, v), PublishCells(p, v)) + payload
    case Ack(_, n, reason, props) => PutU16(n) + (if v.V5? then PutReasonProps(reason, props) else [])
    case Subscribe(n, ts, props) => PutRow(IdTypes(v), IdCells(v, n, props)) + PutTopics(v, ts)
    case SubAck(n, codes, rs, props) =>
      PutRow(IdTypes(v), IdCells(v, n, props)) +
      (if v.V5? then PutAll(PutByte, if rs.Some? then rs.value else Reasons(codes)) else PutAll(PutCode, codes))
    case Unsubscribe(n, fs, props) => PutRow(IdTypes(v), IdCells(v, n, props)) + PutAll(PutBin, fs)
    case UnsubAck(n, rs, props) =>
      if v.V5? then PutRow(IdTypes(v), IdCells(v, n, props)) + PutAll(PutByte, if rs.Some? then rs.value else [])
      else PutU16(n)
    case PingReq => []
    case PingResp => []
    case Disconnect(reason, props) => if v.V5? then PutReasonProps(reason, props) else []
    case Auth(reason, props) => PutReasonProps(reason, props)
  }

  /** The fixed header before the body. */
  function PutFrame(first: byte, body: Bytes): Bytes { [first] + Prefixed(body) }

  function Encode(p: Packet, v: Version): Bytes { PutFrame(TypeOf(p) * 16 + FlagsOf(p), BodyOf(p, v)) }

  datatype PacketKind =
    | KConnect | KConnAck | KPublish | KAck(kind: AckKind) | KSubscribe | KSubAck | KUnsubscribe | KUnsubAck
    | KPingReq | KPingResp | KDisconnect | KAuth

  /** Three types insist on their flags; type 0 is not used. */
  function KindFor(typ: nat, flags: nat): Option<PacketKind> {
    match typ
    case 1 => Some(KConnect)
    case 2 => Some(KConnAck)
    case 3 => Some(KPublish)
    case 4 => Some(KAck(PubAck))
    case 5 => Some(KAck(PubRec))
    case 6 => if flags != 2 then None else Some(KAck(PubRel))
    case 7 => Some(KAck(PubComp))
    case 8 => if flags != 2 then None else Some(KSubscribe)
    case 9 => Some(KSubAck)
    case 10 => if flags != 2 then None else Some(KUnsubscribe)
    case 11 => Some(KUnsubAck)
    case 12 => Some(KPingReq)
    case 13 => Some(KPingResp)
    case 14 => Some(KDisconnect)
    case 15 => Some(KAuth)
    case _ => None
  }

  function DecodeAs(k: PacketKind, flags: nat, s: Bytes, v: Version): Decoded<Packet> {
    match k
    case KConnect => DecodeConnect(s)
    case KConnAck => DecodeConnAck(s, v)
    case KPublish => DecodePublish(s, flags, v)
    case KAck(a) => DecodeAck(a, s, v)
    case KSubscribe => DecodeSubscribe(s, v)
    case KSubAck => DecodeSubAck(s, v)
    case KUnsubscribe => DecodeUnsubscribe(s, v)
    case KUnsubAck => DecodeUnsubAck(s, v)
    case KPingReq => Done(PingReq)
    case KPingResp => Done(PingResp)
    case KDisconnect => DecodeDisconnect(s, v)
    case KAuth => DecodeAuth(s)
  }

  function DecodeBody(typ: nat, flags: nat, s: Bytes, v: Version): Decoded<Packet> {
    match KindFor(typ, flags)
    case None => Bad(Malformed)
    case Some(k) => DecodeAs(k, flags, s, v)
  }

  /** The frame at the front: type and flags, the body, and the octets it takes altogether. */
  datatype Framing = NeedMore | Broken | Framed(first: byte, body: Bytes, total: nat)

  function Frame(s: Bytes): Framing {
    if s == [] then NeedMore
    else
      match ReadVar(s[1..])
      case Fail(e) => if e.Incomplete? then NeedMore else Broken
      case Ok(len, rest) =>
        if |rest| < len then NeedMore else Framed(s[0], rest[..len], |s| - |rest| + len)
  }

  datatype Decoding = More | Err(error: Error) | One(packet: Packet, total: nat)

  function Decode(s: Bytes, v: Version): Decoding {
    match Frame(s)
    case NeedMore => More
    case Broken => Err(Malformed)
    case Framed(first, body, total) =>
      match DecodeBody(first / 16, first % 16, body, v)
      case Bad(e) => Err(e)
      case Done(p) => One(p, total)
  }
}
