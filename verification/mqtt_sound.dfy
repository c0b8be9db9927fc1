/**
 * What arbitrary octets can be decoded to: whatever a peer sends, a packet that comes out is well
 * formed, so nothing later has to check it again.
 */
module MqttSound {
  import opened Common
  import opened Parsing
  import opened MqttWire
  import opened MqttPackets
  import opened MqttRoundTrip

  // --- values ------------------------------------------------------------

  lemma {:induction false} VarBounded(s: Bytes, k: nat)
    requires k < 4 && VarFrom(s, k).Ok?
    ensures VarFrom(s, k).value < Power128(4 - k)
    decreases 4 - k
  {
    if s[0] >= 128 && k < 3 {
      VarBounded(s[1..], k + 1);
    } else {
      PowerAtLeast(4 - k);
    }
  }

  lemma {:induction false} PowerAtLeast(k: nat)
    requires k > 0
    ensures Power128(k) >= 128
  {
    if k > 1 {
      PowerAtLeast(k - 1);
    }
  }

  lemma VarRange(s: Bytes)
    requires ReadVar(s).Ok?
    ensures ReadVar(s).value <= VARINT_MAX
  {
    VarBounded(s, 0);
    assert Power128(4) == 268_435_456 by {
      assert Power128(2) == 16_384;
    }
  }

  lemma BinRange(s: Bytes)
    requires ReadBin(s).Ok?
    ensures |ReadBin(s).value| < U16_SPACE
  {
  }

  lemma StrSound(s: Bytes)
    requires ReadStr(s).Ok?
    ensures IsStr(ReadStr(s).value)
  {
    BinRange(s);
  }

  lemma ValueSound(kind: Kind, s: Bytes)
    requires ReadValue(kind, s).Ok?
    ensures Fits(kind, ReadValue(kind, s).value)
  {
    match kind
    case KVar => VarRange(s);
    case KStr => StrSound(s);
    case KBin => BinRange(s);
    case _ =>
  }

  // --- properties --------------------------------------------------------

  lemma FieldSound(id: byte, kind: Kind, s: Bytes)
    requires ReadField(id, kind, s).Ok?
    ensures ReadField(id, kind, s).value.Field? && ReadField(id, kind, s).value.id == id
    ensures Fits(kind, ReadField(id, kind, s).value.value)
  {
    ValueSound(kind, s);
  }

  lemma UserSound(s: Bytes)
    requires ReadUser(s).Ok?
    ensures ItemOk(ReadUser(s).value)
  {
    StrSound(s);
    StrSound(ReadStr(s).rest);
  }

  lemma ItemSound(s: Bytes)
    requires ReadItem(s).Ok?
    ensures ItemOk(ReadItem(s).value)
  {
    if s[0] == USER_PROPERTY {
      UserSound(s[1..]);
    } else {
      FieldSound(s[0], KindOf(s[0]), s[1..]);
    }
  }

  /** `f` yields only values with property `ok`. */
  ghost predicate Yields<T(!new)>(f: Bytes -> Read<T>, ok: T -> bool) {
    forall s :: f(s).Ok? ==> ok(f(s).value)
  }

  lemma {:induction false} ManySound<T(!new)>(f: Bytes -> Read<T>, ok: T -> bool, s: Bytes, stop: nat, i: nat)
    requires Yields(f, ok) && ReadMany(f, s, stop).Ok? && i < |ReadMany(f, s, stop).value|
    ensures ok(ReadMany(f, s, stop).value[i])
    decreases |s|
  {
    if i > 0 {
      ManySound(f, ok, f(s).rest, stop, i - 1);
    }
  }

  lemma ItemsSound(s: Bytes, stop: nat)
    requires ReadItems(s, stop).Ok?
    ensures AllOk(ReadItems(s, stop).value)
  {
    forall t | ReadItem(t).Ok? ensures ItemOk(ReadItem(t).value) {
      ItemSound(t);
    }
    forall i | 0 <= i < |ReadItems(s, stop).value| ensures ItemOk(ReadItems(s, stop).value[i]) {
      ManySound(ReadItem, ItemOk, s, stop, i);
    }
  }

  lemma WithSound(p: Properties, item: Item)
    requires PropsOk(p) && ItemOk(item)
    ensures PropsOk(With(p, item))
  {
  }

  lemma {:induction false} CollectSound(p: Properties, items: seq<Item>)
    requires PropsOk(p) && AllOk(items)
    ensures PropsOk(Collect(p, items))
    decreases |items|
  {
    if items != [] {
      WithSound(p, items[0]);
      CollectSound(With(p, items[0]), items[1..]);
    }
  }

  lemma PropsSound(s: Bytes)
    requires ReadProps(s).Ok?
    ensures PropsOk(ReadProps(s).value)
  {
    var len := ReadVar(s);
    PropsStep(s, len.value, len.rest);
    ItemsSound(len.rest, |len.rest| - len.value);
    CollectSound(NO_PROPERTIES, ReadItems(len.rest, |len.rest| - len.value).value);
  }

  // --- rows --------------------------------------------------------------

  lemma CellReads(t: Type, s: Bytes)
    requires ReadCell(t, s).Ok?
    ensures CellSound(t, ReadCell(t, s).value)
  {
    match t
    case TU8 =>
    case TU16 =>
    case TStr => StrSound(s);
    case TBin => BinRange(s);
    case TProps => PropsSound(s);
  }

  ghost predicate RowSound(ts: seq<Type>, cs: seq<Cell>) {
    |cs| == |ts| && forall i :: 0 <= i < |ts| ==> CellSound(ts[i], cs[i])
  }

  lemma RowSoundCons(ts: seq<Type>, c: Cell, cs: seq<Cell>)
    requires ts != [] && CellSound(ts[0], c) && RowSound(ts[1..], cs)
    ensures RowSound(ts, [c] + cs)
  {
    forall i | 0 < i < |ts| ensures CellSound(ts[i], ([c] + cs)[i]) {
      assert CellSound(ts[1..][i - 1], cs[i - 1]);
    }
  }

  lemma {:induction false} RowReads(ts: seq<Type>, s: Bytes)
    requires ReadRow(ts, s).Ok?
    ensures RowSound(ts, ReadRow(ts, s).value)
    decreases |ts|
  {
    if ts != [] {
      var first := ReadCell(ts[0], s);
      CellReads(ts[0], s);
      RowReads(ts[1..], first.rest);
      RowSoundCons(ts, first.value, ReadRow(ts[1..], first.rest).value);
    }
  }

  // --- packets -----------------------------------------------------------

  predicate PropsFor(v: Version, p: Option<Properties>) { if v.V5? then p.Some? && PropsOk(p.value) else p.None? }

  predicate MaybeProps(v: Version, p: Option<Properties>) { p.Some? ==> v.V5? && PropsOk(p.value) }

  predicate FilterOk(t: SubscribeTopic) { IsStr(t.filter) }

  predicate Filter311Ok(t: SubscribeTopic) { IsStr(t.filter) && t == NormalTopic(V311, t) }

  /** Widths, text, codes and presence of fields as the format has them. */
  predicate Sound(p: Packet, v: Version) {
    match p
    case Connect(w, id, keep, _, will, user, pass, props) =>
      && IsStr(id) && keep < U16_SPACE && PropsFor(w, props)
      && (will.Some? ==> IsStr(will.value.topic) && |will.value.payload| < U16_SPACE && PropsFor(w, will.value.properties))
      && (user.Some? ==> IsStr(user.value)) && (pass.Some? ==> |pass.value| < U16_SPACE)
    case ConnAck(_, _, props) => PropsFor(v, props)
    case Publish(_, q, _, topic, id, _, props) =>
      && IsStr(topic) && (v.V311? ==> topic != []) && PropsFor(v, props)
      && (id.Some? <==> !q.AtMostOnce?) && (id.Some? ==> id.value < U16_SPACE)
    case Ack(_, n, reason, props) => n < U16_SPACE && IsReason(reason) && MaybeProps(v, props) && (v.V311? ==> reason == 0)
    case Subscribe(n, ts, props) =>
      n < U16_SPACE && ts != [] && PropsFor(v, props)
      && forall i :: 0 <= i < |ts| ==> FilterOk(ts[i]) && (v.V311? ==> Filter311Ok(ts[i]))
    case SubAck(n, codes, rs, props) =>
      n < U16_SPACE && PropsFor(v, props) && (if v.V5? then rs.Some? && ReasonsOk(rs.value) && codes == Codes(rs.value) else rs.None?)
    case Unsubscribe(n, fs, props) => n < U16_SPACE && PropsFor(v, props) && forall i :: 0 <= i < |fs| ==> IsStr(fs[i])
    case UnsubAck(n, rs, props) =>
      n < U16_SPACE && PropsFor(v, props) && (if v.V5? then rs.Some? && ReasonsOk(rs.value) else rs.None?)
    case PingReq => true
    case PingResp => true
    case Disconnect(reason, props) => IsReason(reason) && MaybeProps(v, props) && (v.V311? ==> reason == 0)
    case Auth(reason, props) => IsReason(reason) && MaybeProps(V5, props)
  }

  ghost predicate SoundOut(d: Decoded<Packet>, v: Version) { d.Done? ==> Sound(d.value, v) }

  lemma TailSound(v: Version, flags: nat, q: QoS, keep: nat, p: Option<Properties>, id: Bytes, s: Bytes)
    requires keep < U16_SPACE && PropsFor(v, p) && IsStr(id)
    ensures SoundOut(DecodeTail(v, flags, q, keep, p, id, s), v)
  {
    var ts := TailTypes(v, HasWill(flags), HasUser(flags), HasPass(flags));
    if ReadRow(ts, s).Ok? {
      RowReads(ts, s);
      TailCellsSound(v, HasWill(flags), HasUser(flags), HasPass(flags), ReadRow(ts, s).value);
    }
  }

  lemma TailCellsSound(v: Version, will: bool, user: bool, pass: bool, cs: seq<Cell>)
    requires RowSound(TailTypes(v, will, user, pass), cs)
    ensures var w := WillWidth(v, will);
      && (will ==> IsStr(TextAt(cs, w - 2)) && |TextAt(cs, w - 1)| < U16_SPACE && PropsFor(v, PropsAt(v, cs, 0)))
      && (user ==> IsStr(TextAt(cs, w))) && (pass ==> |TextAt(cs, w + Bit(user))| < U16_SPACE)
  {
    var ts, w := TailTypes(v, will, user, pass), WillWidth(v, will);
    if will {
      assert ts[w - 2] == TStr && ts[w - 1] == TBin && (v.V5? ==> ts[0] == TProps);
    }
    assert user ==> ts[w] == TStr;
    assert pass ==> ts[w + Bit(user)] == TBin;
  }

  lemma HeadSound(v: Version, s: Bytes)
    ensures SoundOut(DecodeHead(v, s), v)
  {
    var ts := HeadTypes(v);
    if ReadRow(ts, s).Ok? {
      var cs := ReadRow(ts, s).value;
      RowReads(ts, s);
      HeadCellsSound(v, cs);
      var flags := NumAt(cs, 0);
      if QosOf((flags / 8) % 4).Some? {
        TailSound(v, flags, QosOf((flags / 8) % 4).value, NumAt(cs, 1), PropsAt(v, cs, 2), TextAt(cs, |cs| - 1), ReadRow(ts, s).rest);
      }
    }
  }

  lemma HeadCellsSound(v: Version, cs: seq<Cell>)
    requires RowSound(HeadTypes(v), cs)
    ensures NumAt(cs, 1) < U16_SPACE && PropsFor(v, PropsAt(v, cs, 2)) && IsStr(TextAt(cs, |cs| - 1))
  {
    var ts := HeadTypes(v);
    assert ts[1] == TU16 && ts[|ts| - 1] == TStr && (v.V5? ==> ts[2] == TProps);
  }

  lemma ConnectSound(s: Bytes, v: Version)
    ensures SoundOut(DecodeConnect(s), v)
  {
    if ReadRow([TStr], s).Ok? {
      var level := ReadRow([TStr], s).rest;
      if ReadRow([TU8], level).Ok? {
        HeadSound(V311, ReadRow([TU8], level).rest);
        HeadSound(V5, ReadRow([TU8], level).rest);
      }
    }
  }

  lemma ConnAckSound(s: Bytes, v: Version)
    ensures SoundOut(DecodeConnAck(s, v), v)
  {
    if |s| >= 2 && ReadRow(PropTypes(v), s[2..]).Ok? {
      RowReads(PropTypes(v), s[2..]);
    }
  }

  lemma PublishCellsSound(q: QoS, v: Version, cs: seq<Cell>)
    requires RowSound(PublishTypes(q, v), cs)
    ensures IsStr(TextAt(cs, 0)) && PropsFor(v, PropsAt(v, cs, |cs| - 1)) && (!q.AtMostOnce? ==> NumAt(cs, 1) < U16_SPACE)
  {
    var ts := PublishTypes(q, v);
    assert ts[0] == TStr && (v.V5? ==> ts[|ts| - 1] == TProps) && (!q.AtMostOnce? ==> ts[1] == TU16);
  }

  lemma PublishSound(s: Bytes, flags: nat, v: Version)
    ensures SoundOut(DecodePublish(s, flags, v), v)
  {
    if QosOf((flags / 2) % 4).Some? {
      var q := QosOf((flags / 2) % 4).value;
      if ReadRow(PublishTypes(q, v), s).Ok? {
        RowReads(PublishTypes(q, v), s);
        PublishCellsSound(q, v, ReadRow(PublishTypes(q, v), s).value);
      }
    }
  }

  lemma ReasonPropsSound(s: Bytes)
    requires ReadReasonProps(s).Done?
    ensures IsReason(ReadReasonProps(s).value.0)
    ensures ReadReasonProps(s).value.1.Some? ==> PropsOk(ReadReasonProps(s).value.1.value)
  {
    if s != [] && ReadProps(s[1..]).Ok? {
      PropsSound(s[1..]);
    }
  }

  lemma AckSound(kind: AckKind, s: Bytes, v: Version)
    ensures SoundOut(DecodeAck(kind, s, v), v)
  {
    if v.V5? && ReadU16(s).Ok? && ReadReasonProps(ReadU16(s).rest).Done? {
      ReasonPropsSound(ReadU16(s).rest);
    }
  }

  lemma IdCellsSound(v: Version, s: Bytes)
    requires ReadRow(IdTypes(v), s).Ok?
    ensures var cs := ReadRow(IdTypes(v), s).value; NumAt(cs, 0) < U16_SPACE && PropsFor(v, PropsAt(v, cs, 1))
  {
    RowReads(IdTypes(v), s);
    assert IdTypes(v)[0] == TU16 && (v.V5? ==> IdTypes(v)[1] == TProps);
  }

  lemma TopicReads(s: Bytes)
    ensures ReadTopic5(s).Ok? ==> FilterOk(ReadTopic5(s).value)
    ensures ReadTopic311(s).Ok? ==> Filter311Ok(ReadTopic311(s).value)
  {
    if ReadRow([TStr, TU8], s).Ok? {
      RowReads([TStr, TU8], s);
      assert [TStr, TU8][0] == TStr;
    }
  }

  lemma TopicsSound(v: Version, s: Bytes, i: nat)
    requires ReadTopics(v, s).Ok? && i < |ReadTopics(v, s).value|
    ensures FilterOk(ReadTopics(v, s).value[i]) && (v.V311? ==> Filter311Ok(ReadTopics(v, s).value[i]))
  {
    forall t ensures ReadTopic5(t).Ok? ==> FilterOk(ReadTopic5(t).value) {
      TopicReads(t);
    }
    forall t ensures ReadTopic311(t).Ok? ==> Filter311Ok(ReadTopic311(t).value) {
      TopicReads(t);
    }
    if v.V5? {
      ManySound(ReadTopic5, FilterOk, s, 2, i);
    } else {
      ManySound(ReadTopic311, Filter311Ok, s, 2, i);
    }
  }

  lemma SubscribeSound(s: Bytes, v: Version)
    ensures SoundOut(DecodeSubscribe(s, v), v)
  {
    if ReadRow(IdTypes(v), s).Ok? {
      IdCellsSound(v, s);
      var more := ReadRow(IdTypes(v), s).rest;
      if ReadTopics(v, more).Ok? {
        var ts := ReadTopics(v, more).value;
        forall i | 0 <= i < |ts| ensures FilterOk(ts[i]) && (v.V311? ==> Filter311Ok(ts[i])) {
          TopicsSound(v, more, i);
        }
      }
    }
  }

  lemma ReasonsSound(s: Bytes)
    requires ReadReasons(s).Ok?
    ensures ReasonsOk(ReadReasons(s).value)
  {
    forall i | 0 <= i < |ReadReasons(s).value| ensures IsReason(ReadReasons(s).value[i]) {
      ManySound(ReadReason, IsReason, s, 0, i);
    }
  }

  lemma SubAckSound(s: Bytes, v: Version)
    ensures SoundOut(DecodeSubAck(s, v), v) && SoundOut(DecodeUnsubAck(s, v), v)
  {
    if ReadRow(IdTypes(v), s).Ok? {
      IdCellsSound(v, s);
      var more := ReadRow(IdTypes(v), s).rest;
      if ReadReasons(more).Ok? {
        ReasonsSound(more);
      }
    }
  }

  lemma FiltersSound(s: Bytes, i: nat)
    requires ReadFilters(s).Ok? && i < |ReadFilters(s).value|
    ensures IsStr(ReadFilters(s).value[i])
  {
    forall t ensures ReadStr(t).Ok? ==> IsStr(ReadStr(t).value) {
      if ReadStr(t).Ok? {
        StrSound(t);
      }
    }
    ManySound(ReadStr, IsStr, s, 1, i);
  }

  lemma UnsubscribeSound(s: Bytes, v: Version)
    ensures SoundOut(DecodeUnsubscribe(s, v), v)
  {
    if ReadRow(IdTypes(v), s).Ok? {
      IdCellsSound(v, s);
      var more := ReadRow(IdTypes(v), s).rest;
      if ReadFilters(more).Ok? {
        forall i | 0 <= i < |ReadFilters(more).value| ensures IsStr(ReadFilters(more).value[i]) {
          FiltersSound(more, i);
        }
      }
    }
  }

  lemma ClosingSound(s: Bytes, v: Version)
    ensures SoundOut(DecodeDisconnect(s, v), v) && SoundOut(DecodeAuth(s), v)
  {
    if ReadReasonProps(s).Done? {
      ReasonPropsSound(s);
    }
  }

  lemma AsSound(k: PacketKind, flags: nat, s: Bytes, v: Version)
    ensures SoundOut(DecodeAs(k, flags, s, v), v)
  {
    match k
    case KConnect => ConnectSound(s, v);
    case KConnAck => ConnAckSound(s, v);
    case KPublish => PublishSound(s, flags, v);
    case KAck(a) => AckSound(a, s, v);
    case KSubscribe => SubscribeSound(s, v);
    case KSubAck => SubAckSound(s, v);
    case KUnsubscribe => UnsubscribeSound(s, v);
    case KUnsubAck => SubAckSound(s, v);
    case KPingReq =>
    case KPingResp =>
    case KDisconnect => ClosingSound(s, v);
    case KAuth => ClosingSound(s, v);
  }

  lemma BodySound(typ: nat, flags: nat, s: Bytes, v: Version)
    ensures SoundOut(DecodeBody(typ, flags, s, v), v)
  {
    var k := KindFor(typ, flags);
    if k.Some? {
      AsSound(k.value, flags, s, v);
    }
  }

  /** Whatever octets arrive, a packet that is decoded is well formed for the version in force. */
  lemma DecodedIsSound(s: Bytes, v: Version)
    requires Decode(s, v).One?
    ensures Sound(Decode(s, v).packet, v)
  {
    var f := Frame(s);
    BodySound(f.first / 16, f.first % 16, f.body, v);
  }

  // --- and in normal form ------------------------------------------------

  /** An acknowledgement, DISCONNECT or AUTH that spells out an empty property block. */
  predicate Blank(p: Packet) { (p.Ack? || p.Disconnect? || p.Auth?) && p.properties == Some(NO_PROPERTIES) }

  lemma {:induction false} NormalTopicsId(v: Version, ts: seq<SubscribeTopic>)
    requires forall i :: 0 <= i < |ts| ==> ts[i] == NormalTopic(v, ts[i])
    ensures NormalTopics(v, ts) == ts
  {
    if ts != [] {
      NormalTopicsId(v, ts[1..]);
      assert [ts[0]] + ts[1..] == ts;
    }
  }

  lemma SoundIsNormal(p: Packet, v: Version)
    requires Sound(p, v) && !Blank(p)
    ensures Normal(p, v) == p
  {
    if p.Subscribe? {
      NormalTopicsId(v, p.topics);
    }
  }

  /** Every packet a reader accepts is already in normal form, save for a spelled-out empty block. */
  lemma DecodedIsNormal(s: Bytes, v: Version)
    requires Decode(s, v).One? && !Blank(Decode(s, v).packet)
    ensures Normal(Decode(s, v).packet, v) == Decode(s, v).packet
  {
    DecodedIsSound(s, v);
    SoundIsNormal(Decode(s, v).packet, v);
  }
}
