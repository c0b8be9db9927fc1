/**
 * The data types of the MQTT wire format: integers, strings, binary data, variable byte integers
 * and version 5 property blocks, written to octets and read back from the front of them.
 */
module MqttWire {
  import opened Common
  import opened Parsing
  import Utf8

  const U16_SPACE: nat := 0x1_0000
  const U32_SPACE: nat := 0x1_0000_0000
  const VARINT_MAX: nat := 268_435_455

  // --- integers, strings, binary data ------------------------------------

  function ReadU8(s: Bytes): (r: Read<byte>)
    ensures r.Ok? ==> |r.rest| == |s| - 1
  {
    if s == [] then Fail(Incomplete) else Ok(s[0], s[1..])
  }

  function PutU16(n: nat): Bytes { [(n / 256) % 256, n % 256] }

  function ReadU16(s: Bytes): (r: Read<nat>)
    ensures r.Ok? ==> |r.rest| == |s| - 2
  {
    if |s| < 2 then Fail(Incomplete)
    else
      var hi: int := s[0];
      Ok(hi * 256 + s[1], s[2..])
  }

  function PutU32(n: nat): Bytes {
    var n1 := n / 256;
    var n2 := n1 / 256;
    [(n2 / 256) % 256, n2 % 256, n1 % 256, n % 256]
  }

  function ReadU32(s: Bytes): (r: Read<nat>)
    ensures r.Ok? ==> |r.rest| == |s| - 4
  {
    if |s| < 4 then Fail(Incomplete)
    else
      var b3: int, b2: int, b1: int := s[0], s[1], s[2];
      Ok(((b3 * 256 + b2) * 256 + b1) * 256 + s[3], s[4..])
  }

  /** The length is cut to sixteen bits. */
  function PutBin(b: Bytes): Bytes { PutU16(|b|) + b }

  function ReadBin(s: Bytes): (r: Read<Bytes>)
    ensures r.Ok? ==> |r.rest| <= |s| - 2
  {
    if |s| < 2 then Fail(Incomplete)
    else
      var n := ReadU16(s).value;
      if |s| - 2 < n then Fail(Incomplete) else Ok(s[2..2 + n], s[2 + n..])
  }

  function ReadStr(s: Bytes): (r: Read<Bytes>)
    ensures r.Ok? ==> |r.rest| <= |s| - 2
  {
    var r := ReadBin(s);
    if r.Ok? && !Utf8.Valid(r.value) then Fail(Malformed) else r
  }

  lemma U8Back(b: byte, t: Bytes)
    ensures ReadU8([b] + t) == Ok(b, t)
  {
  }

  lemma U16Back(n: nat, t: Bytes)
    requires n < U16_SPACE
    ensures ReadU16(PutU16(n) + t) == Ok(n, t)
  {
    var s := PutU16(n) + t;
    assert s[0] == n / 256 && s[1] == n % 256 && s[2..] == t;
  }

  lemma U32Back(n: nat, t: Bytes)
    requires n < U32_SPACE
    ensures ReadU32(PutU32(n) + t) == Ok(n, t)
  {
    var s, n1 := PutU32(n) + t, n / 256;
    var n2 := n1 / 256;
    var b3: int, b2: int, b1: int, b0: int := s[0], s[1], s[2], s[3];
    assert b3 * 256 + b2 == n2 && n2 * 256 + b1 == n1 && n1 * 256 + b0 == n;
    assert s[4..] == t;
  }

  lemma BinBack(b: Bytes, t: Bytes)
    requires |b| < U16_SPACE
    ensures ReadBin(PutBin(b) + t) == Ok(b, t)
  {
    var s := PutBin(b) + t;
    assert s == PutU16(|b|) + (b + t);
    U16Back(|b|, b + t);
    assert s[2..2 + |b|] == b && s[2 + |b|..] == t;
  }

  predicate IsStr(b: Bytes) { |b| < U16_SPACE && Utf8.Valid(b) }

  lemma StrBack(b: Bytes, t: Bytes)
    requires IsStr(b)
    ensures ReadStr(PutBin(b) + t) == Ok(b, t)
  {
    BinBack(b, t);
  }

  // --- variable byte integers --------------------------------------------

  function PutVar(n: nat): (s: Bytes)
    ensures s != []
  {
    if n < 128 then [n] else [n % 128 + 128] + PutVar(n / 128)
  }

  /** The digits from the `k`-th on, the least significant first; at most four digits. */
  function VarFrom(s: Bytes, k: nat): (r: Read<nat>)
    requires k < 4
    ensures r.Ok? ==> |s| - (4 - k) <= |r.rest| < |s|
    decreases 4 - k
  {
    if s == [] then Fail(Incomplete)
    else if s[0] < 128 then Ok(s[0], s[1..])
    else if k == 3 then Fail(Malformed)
    else
      match VarFrom(s[1..], k + 1)
      case Fail(e) => Fail(e)
      case Ok(v, rest) =>
        var low: int := s[0];
        Ok(low - 128 + 128 * v, rest)
  }

  function ReadVar(s: Bytes): (r: Read<nat>)
    ensures r.Ok? ==> |s| - 4 <= |r.rest| < |s|
  {
    VarFrom(s, 0)
  }

  function Power128(k: nat): nat { if k == 0 then 1 else 128 * Power128(k - 1) }

  lemma {:induction false} VarBackFrom(n: nat, k: nat, t: Bytes)
    requires k < 4 && n < Power128(4 - k)
    ensures VarFrom(PutVar(n) + t, k) == Ok(n, t)
    decreases 4 - k
  {
    var s := PutVar(n) + t;
    if n < 128 {
      assert s[1..] == t;
    } else {
      assert k < 3 by {
        assert Power128(1) == 128;
      }
      assert s[1..] == PutVar(n / 128) + t;
      assert n / 128 < Power128(3 - k);
      VarBackFrom(n / 128, k + 1, t);
    }
  }

  /** Every integer up to 268435455 is read back, whatever follows it. */
  lemma VarBack(n: nat, t: Bytes)
    requires n <= VARINT_MAX
    ensures ReadVar(PutVar(n) + t) == Ok(n, t)
  {
    assert Power128(4) == 268_435_456 by {
      assert Power128(2) == 16_384;
    }
    VarBackFrom(n, 0, t);
  }

  /** A reading that did not run out of octets is not changed by more of them. */
  lemma {:induction false} VarStable(s: Bytes, k: nat, x: Bytes)
    requires k < 4 && VarFrom(s, k) != Fail(Incomplete)
    ensures VarFrom(s + x, k) ==
      match VarFrom(s, k) case Ok(v, rest) => Ok(v, rest + x) case Fail(e) => Fail(e)
    decreases 4 - k
  {
    assert (s + x)[1..] == s[1..] + x;
    if s[0] >= 128 && k < 3 {
      VarStable(s[1..], k + 1, x);
    }
  }

  /** Cut inside the digits, a reading runs out of octets. */
  lemma {:induction false} VarCut(s: Bytes, k: nat, n: nat)
    requires k < 4 && VarFrom(s, k).Ok? && n < |s| - |VarFrom(s, k).rest|
    ensures VarFrom(s[..n], k) == Fail(Incomplete)
    decreases 4 - k
  {
    if n > 0 {
      assert s[..n][1..] == s[1..][..n - 1];
      VarCut(s[1..], k + 1, n - 1);
    }
  }

  // --- properties --------------------------------------------------------

  datatype Kind = KU8 | KU16 | KU32 | KStr | KBin | KVar | KUser | KNone

  const USER_PROPERTY: byte := 0x26
  const LAST_PROPERTY: byte := 0x2A
  const TOPIC_ALIAS: byte := 0x23
  const TOPIC_ALIAS_MAXIMUM: byte := 0x22
  const AUTHENTICATION_METHOD: byte := 0x15

  function KindOf(id: byte): Kind {
    match id
    case 0x01 => KU8
    case 0x02 => KU32
    case 0x03 => KStr
    case 0x08 => KStr
    case 0x09 => KBin
    case 0x0B => KVar
    case 0x11 => KU32
    case 0x12 => KStr
    case 0x13 => KU16
    case 0x15 => KStr
    case 0x16 => KBin
    case 0x17 => KU8
    case 0x18 => KU32
    case 0x19 => KU8
    case 0x1A => KStr
    case 0x1C => KStr
    case 0x1F => KStr
    case 0x21 => KU16
    case 0x22 => KU16
    case 0x23 => KU16
    case 0x24 => KU8
    case 0x25 => KU8
    case 0x26 => KUser
    case 0x27 => KU32
    case 0x28 => KU8
    case 0x29 => KU8
    case 0x2A => KU8
    case _ => KNone
  }

  datatype Value = Num(n: nat) | Text(s: Bytes)

  /** Each property at most once, by its identifier; user properties repeat and keep their order. */
  datatype Properties = Properties(fields: map<byte, Value>, users: seq<(Bytes, Bytes)>)

  const NO_PROPERTIES := Properties(map[], [])

  /** The value is one the property's type holds. */
  predicate Fits(kind: Kind, v: Value) {
    match kind
    case KU8 => v.Num? && v.n < 256
    case KU16 => v.Num? && v.n < U16_SPACE
    case KU32 => v.Num? && v.n < U32_SPACE
    case KVar => v.Num? && v.n <= VARINT_MAX
    case KStr => v.Text? && IsStr(v.s)
    case KBin => v.Text? && |v.s| < U16_SPACE
    case KUser => false
    case KNone => false
  }

  predicate PropsOk(p: Properties) {
    (forall id :: id in p.fields ==> Fits(KindOf(id), p.fields[id]))
    && forall i :: 0 <= i < |p.users| ==> IsStr(p.users[i].0) && IsStr(p.users[i].1)
  }

  function Number(v: Value): nat { if v.Num? then v.n else 0 }

  function Octets(v: Value): Bytes { if v.Text? then v.s else [] }

  function PutValue(kind: Kind, v: Value): Bytes {
    match kind
    case KU8 => [Number(v) % 256]
    case KU16 => PutU16(Number(v))
    case KU32 => PutU32(Number(v))
    case KVar => PutVar(Number(v))
    case KStr => PutBin(Octets(v))
    case KBin => PutBin(Octets(v))
    case KUser => []
    case KNone => []
  }

  function AsNum(r: Read<nat>): (q: Read<Value>)
    ensures q.Ok? <==> r.Ok?
    ensures q.Ok? ==> q.rest == r.rest
  {
    match r case Ok(n, rest) => Ok(Num(n), rest) case Fail(e) => Fail(e)
  }

  function AsText(r: Read<Bytes>): (q: Read<Value>)
    ensures q.Ok? <==> r.Ok?
    ensures q.Ok? ==> q.rest == r.rest
  {
    match r case Ok(b, rest) => Ok(Text(b), rest) case Fail(e) => Fail(e)
  }

  function ReadValue(kind: Kind, s: Bytes): (r: Read<Value>)
    ensures r.Ok? ==> |r.rest| <= |s|
  {
    match kind
    case KU8 => (match ReadU8(s) case Ok(b, rest) => Ok(Num(b), rest) case Fail(e) => Fail(e))
    case KU16 => AsNum(ReadU16(s))
    case KU32 => AsNum(ReadU32(s))
    case KVar => AsNum(ReadVar(s))
    case KStr => AsText(ReadStr(s))
    case KBin => AsText(ReadBin(s))
    case KUser => Fail(Malformed)
    case KNone => Fail(Malformed)
  }

  lemma ValueBack(kind: Kind, v: Value, t: Bytes)
    requires Fits(kind, v)
    ensures ReadValue(kind, PutValue(kind, v) + t) == Ok(v, t)
  {
    match kind
    case KU8 => U8Back(v.n, t);
    case KU16 => U16Back(v.n, t);
    case KU32 => U32Back(v.n, t);
    case KVar => VarBack(v.n, t);
    case KStr => StrBack(v.s, t);
    case KBin => BinBack(v.s, t);
  }

  /** One property of a block: a field, or a user property's name and value. */
  datatype Item = Field(id: byte, value: Value) | User(name: Bytes, text: Bytes)

  function ReadUser(s: Bytes): (r: Read<Item>)
    ensures r.Ok? ==> |r.rest| < |s|
  {
    match ReadStr(s)
    case Fail(e) => Fail(e)
    case Ok(name, more) =>
      match ReadStr(more)
      case Fail(e) => Fail(e)
      case Ok(text, rest) => Ok(User(name, text), rest)
  }

  function ReadField(id: byte, kind: Kind, s: Bytes): (r: Read<Item>)
    ensures r.Ok? ==> |r.rest| <= |s|
  {
    match ReadValue(kind, s)
    case Fail(e) => Fail(e)
    case Ok(v, rest) => Ok(Field(id, v), rest)
  }

  function ReadItem(s: Bytes): (r: Read<Item>)
    ensures r.Ok? ==> |r.rest| < |s|
  {
    if s == [] then Fail(Incomplete)
    else if s[0] == USER_PROPERTY then ReadUser(s[1..])
    else ReadField(s[0], KindOf(s[0]), s[1..])
  }

  function PutItem(item: Item): Bytes {
    match item
    case Field(id, v) => [id] + PutValue(KindOf(id), v)
    case User(name, text) => [USER_PROPERTY] + (PutBin(name) + PutBin(text))
  }

  predicate ItemOk(item: Item) {
    match item
    case Field(id, v) => Fits(KindOf(id), v)
    case User(name, text) => IsStr(name) && IsStr(text)
  }

  lemma ItemBack(item: Item)
    requires ItemOk(item)
    ensures Inverts(ReadItem, PutItem, item) && PutItem(item) != []
  {
    forall t ensures ReadItem(PutItem(item) + t) == Ok(item, t) {
      match item
      case Field(id, v) => FieldItemBack(id, v, t);
      case User(name, text) => UserItemBack(name, text, t);
    }
  }

  lemma UserItemBack(name: Bytes, text: Bytes, t: Bytes)
    requires IsStr(name) && IsStr(text)
    ensures ReadItem(PutItem(User(name, text)) + t) == Ok(User(name, text), t)
  {
    var s := PutItem(User(name, text)) + t;
    assert s[1..] == PutBin(name) + (PutBin(text) + t);
    StrBack(name, PutBin(text) + t);
    StrBack(text, t);
  }

  lemma TypedBack(id: byte, kind: Kind, v: Value, t: Bytes)
    requires Fits(kind, v)
    ensures ReadField(id, kind, PutValue(kind, v) + t) == Ok(Field(id, v), t)
  {
    ValueBack(kind, v, t);
  }

  lemma HeadField(id: byte, b: Bytes)
    requires id != USER_PROPERTY
    ensures ReadItem([id] + b) == ReadField(id, KindOf(id), b)
  {
    assert ([id] + b)[1..] == b;
  }

  lemma FieldItemBack(id: byte, v: Value, t: Bytes)
    requires Fits(KindOf(id), v)
    ensures ReadItem(PutItem(Field(id, v)) + t) == Ok(Field(id, v), t)
  {
    Regroup([id], PutValue(KindOf(id), v), t);
    HeadField(id, PutValue(KindOf(id), v) + t);
    TypedBack(id, KindOf(id), v, t);
  }

  function With(p: Properties, item: Item): Properties {
    match item
    case Field(id, v) => p.(fields := p.fields[id := v])
    case User(name, text) => p.(users := p.users + [(name, text)])
  }

  /** A later occurrence of a field replaces an earlier one. */
  function Collect(p: Properties, items: seq<Item>): Properties
    decreases |items|
  {
    if items == [] then p else Collect(With(p, items[0]), items[1..])
  }

  function ReadItems(s: Bytes, stop: nat): (r: Read<seq<Item>>)
    ensures r.Ok? ==> |r.rest| <= |s|
  {
    ReadMany(ReadItem, s, stop)
  }

  function Collected(r: Read<seq<Item>>): Read<Properties> {
    match r
    case Fail(e) => Fail(e)
    case Ok(items, rest) => Ok(Collect(NO_PROPERTIES, items), rest)
  }

  /** The length says where the block ends; the values themselves may run past that point. */
  function ReadProps(s: Bytes): (r: Read<Properties>)
    ensures r.Ok? ==> |r.rest| < |s|
  {
    match ReadVar(s)
    case Fail(e) => Fail(e)
    case Ok(len, more) =>
      if |more| < len then Fail(Incomplete) else Collected(ReadItems(more, |more| - len))
  }

  function UserItems(users: seq<(Bytes, Bytes)>): seq<Item> {
    if users == [] then [] else [User(users[0].0, users[0].1)] + UserItems(users[1..])
  }

  function ItemsAt(p: Properties, id: byte): seq<Item> {
    if id == USER_PROPERTY then UserItems(p.users) else if id in p.fields then [Field(id, p.fields[id])] else []
  }

  /** The properties from identifier `id` on, in the order they are written. */
  function ItemsFrom(p: Properties, id: byte): seq<Item>
    decreases 256 - id
  {
    if id > LAST_PROPERTY then [] else ItemsAt(p, id) + ItemsFrom(p, id + 1)
  }

  function Block(p: Properties): Bytes { PutAll(PutItem, ItemsFrom(p, 1)) }

  /** Octets preceded by their number. */
  function Prefixed(b: Bytes): Bytes { PutVar(|b| % U32_SPACE) + b }

  function PutProps(p: Properties): Bytes { Prefixed(Block(p)) }

  // --- properties read back ----------------------------------------------

  lemma {:induction false} CollectConcat(p: Properties, a: seq<Item>, b: seq<Item>)
    ensures Collect(p, a + b) == Collect(Collect(p, a), b)
    decreases |a|
  {
    if a == [] {
      assert a + b == b;
    } else {
      assert (a + b)[1..] == a[1..] + b;
      CollectConcat(With(p, a[0]), a[1..], b);
    }
  }

  lemma {:induction false} CollectUsers(p: Properties, users: seq<(Bytes, Bytes)>)
    ensures Collect(p, UserItems(users)) == p.(users := p.users + users)
    decreases |users|
  {
    if users == [] {
      assert p.users + users == p.users;
    } else {
      var q := With(p, User(users[0].0, users[0].1));
      CollectUsers(q, users[1..]);
      assert q.users + users[1..] == p.users + users;
    }
  }

  /** What is known once everything below identifier `id` has been read. */
  function Seen(p: Properties, id: byte): Properties {
    Properties(map k | k in p.fields && k < id :: p.fields[k], if id > USER_PROPERTY then p.users else [])
  }

  predicate Listed(p: Properties) { forall id :: id in p.fields ==> 1 <= id <= LAST_PROPERTY && id != USER_PROPERTY }

  lemma SeenNext(p: Properties, id: byte)
    requires Listed(p) && id <= LAST_PROPERTY
    ensures Collect(Seen(p, id), ItemsAt(p, id)) == Seen(p, id + 1)
  {
    var a, b := Seen(p, id), Seen(p, id + 1);
    if id == USER_PROPERTY {
      CollectUsers(a, p.users);
      assert a.fields == b.fields && [] + p.users == p.users;
    } else if id in p.fields {
      assert a.fields[id := p.fields[id]] == b.fields;
    } else {
      assert a.fields == b.fields;
    }
  }

  lemma {:induction false} CollectFrom(p: Properties, id: byte)
    requires Listed(p) && id <= LAST_PROPERTY + 1
    ensures Collect(Seen(p, id), ItemsFrom(p, id)) == Seen(p, LAST_PROPERTY + 1)
    decreases 256 - id
  {
    if id <= LAST_PROPERTY {
      CollectConcat(Seen(p, id), ItemsAt(p, id), ItemsFrom(p, id + 1));
      SeenNext(p, id);
      CollectFrom(p, id + 1);
    }
  }

  lemma CollectBack(p: Properties)
    requires Listed(p)
    ensures Collect(NO_PROPERTIES, ItemsFrom(p, 1)) == p
  {
    CollectFrom(p, 1);
    assert Seen(p, 1) == NO_PROPERTIES && Seen(p, LAST_PROPERTY + 1) == p;
  }

  predicate AllOk(items: seq<Item>) { forall i :: 0 <= i < |items| ==> ItemOk(items[i]) }

  lemma AllOkConcat(a: seq<Item>, b: seq<Item>)
    requires AllOk(a) && AllOk(b)
    ensures AllOk(a + b)
  {
  }

  lemma {:induction false} UsersOk(users: seq<(Bytes, Bytes)>)
    requires forall i :: 0 <= i < |users| ==> IsStr(users[i].0) && IsStr(users[i].1)
    ensures AllOk(UserItems(users))
    decreases |users|
  {
    if users != [] {
      UsersOk(users[1..]);
      AllOkConcat([User(users[0].0, users[0].1)], UserItems(users[1..]));
    }
  }

  lemma ItemsAtOk(p: Properties, id: byte)
    requires PropsOk(p)
    ensures AllOk(ItemsAt(p, id))
  {
    UsersOk(p.users);
  }

  lemma {:induction false} ItemsOk(p: Properties, id: byte)
    requires PropsOk(p)
    ensures AllOk(ItemsFrom(p, id))
    decreases 256 - id
  {
    if id <= LAST_PROPERTY {
      ItemsAtOk(p, id);
      ItemsOk(p, id + 1);
      AllOkConcat(ItemsAt(p, id), ItemsFrom(p, id + 1));
    }
  }

  lemma IsListed(p: Properties)
    requires PropsOk(p)
    ensures Listed(p)
  {
  }

  lemma BlockBack(p: Properties, t: Bytes)
    requires PropsOk(p)
    ensures ReadItems(Block(p) + t, |t|) == Ok(ItemsFrom(p, 1), t)
  {
    var items := ItemsFrom(p, 1);
    ItemsOk(p, 1);
    forall i | 0 <= i < |items| ensures Inverts(ReadItem, PutItem, items[i]) && |PutItem(items[i])| + |t| > |t| {
      ItemBack(items[i]);
    }
    ManyBack(ReadItem, PutItem, items, t, |t|);
  }

  lemma PropsStep(s: Bytes, len: nat, more: Bytes)
    requires ReadVar(s) == Ok(len, more) && len <= |more|
    ensures ReadProps(s) == Collected(ReadItems(more, |more| - len))
  {
  }

  lemma PropsRead(s: Bytes, len: nat, more: Bytes, r: Read<seq<Item>>)
    requires ReadVar(s) == Ok(len, more) && len <= |more| && r == ReadItems(more, |more| - len)
    ensures ReadProps(s) == Collected(r)
  {
    PropsStep(s, len, more);
  }

  /** The block's length can be written. */
  predicate PropsFit(p: Properties) { PropsOk(p) && |Block(p)| <= VARINT_MAX }

  lemma LengthAt(p: Bytes, n: nat, b: Bytes, t: Bytes)
    requires ReadVar(p + (b + t)) == Ok(n, b + t)
    ensures ReadVar(p + b + t) == Ok(n, b + t)
  {
    Regroup(p, b, t);
  }

  lemma LengthBack(b: Bytes, t: Bytes)
    requires |b| <= VARINT_MAX
    ensures ReadVar(Prefixed(b) + t) == Ok(|b|, b + t)
  {
    VarBack(|b|, b + t);
    LengthAt(PutVar(|b|), |b|, b, t);
  }

  lemma ItemsBack(p: Properties, t: Bytes)
    requires PropsOk(p)
    ensures Collected(ReadItems(Block(p) + t, |t|)) == Ok(p, t)
  {
    BlockBack(p, t);
    IsListed(p);
    CollectBack(p);
  }

  /** A block of well-typed properties is read back, whatever follows it. */
  lemma PropsBack(p: Properties, t: Bytes)
    requires PropsFit(p)
    ensures ReadProps(PutProps(p) + t) == Ok(p, t)
  {
    LengthBack(Block(p), t);
    ItemsBack(p, t);
    PropsRead(PutProps(p) + t, |Block(p)|, Block(p) + t, ReadItems(Block(p) + t, |t|));
  }

  // --- records -----------------------------------------------------------

  datatype Type = TU8 | TU16 | TStr | TBin | TProps

  datatype Cell = CNum(n: nat) | CText(s: Bytes) | CProps(p: Properties)

  function PutCell(t: Type, c: Cell): Bytes {
    match t
    case TU8 => [(if c.CNum? then c.n else 0) % 256]
    case TU16 => PutU16(if c.CNum? then c.n else 0)
    case TStr => PutBin(if c.CText? then c.s else [])
    case TBin => PutBin(if c.CText? then c.s else [])
    case TProps => PutProps(if c.CProps? then c.p else NO_PROPERTIES)
  }

  /** The cell is one the type holds. */
  predicate CellSound(t: Type, c: Cell) {
    match t
    case TU8 => c.CNum? && c.n < 256
    case TU16 => c.CNum? && c.n < U16_SPACE
    case TStr => c.CText? && IsStr(c.s)
    case TBin => c.CText? && |c.s| < U16_SPACE
    case TProps => c.CProps? && PropsOk(c.p)
  }

  /** And a block's length can be written. */
  predicate CellOk(t: Type, c: Cell) { CellSound(t, c) && (t.TProps? ==> |Block(c.p)| <= VARINT_MAX) }

  function ReadCell(t: Type, s: Bytes): Read<Cell> {
    match t
    case TU8 => (match ReadU8(s) case Ok(n, rest) => Ok(CNum(n), rest) case Fail(e) => Fail(e))
    case TU16 => (match ReadU16(s) case Ok(n, rest) => Ok(CNum(n), rest) case Fail(e) => Fail(e))
    case TStr => (match ReadStr(s) case Ok(b, rest) => Ok(CText(b), rest) case Fail(e) => Fail(e))
    case TBin => (match ReadBin(s) case Ok(b, rest) => Ok(CText(b), rest) case Fail(e) => Fail(e))
    case TProps => (match ReadProps(s) case Ok(p, rest) => Ok(CProps(p), rest) case Fail(e) => Fail(e))
  }

  lemma PropsCellBack(c: Cell, s: Bytes)
    requires c.CProps? && PropsFit(c.p)
    ensures ReadCell(TProps, PutCell(TProps, c) + s) == Ok(c, s)
  {
    PropsBack(c.p, s);
  }

  lemma CellBack(t: Type, c: Cell, s: Bytes)
    requires CellOk(t, c)
    ensures ReadCell(t, PutCell(t, c) + s) == Ok(c, s)
  {
    match t
    case TU8 => U8Back(c.n, s);
    case TU16 => U16Back(c.n, s);
    case TStr => StrBack(c.s, s);
    case TBin => BinBack(c.s, s);
    case TProps => PropsCellBack(c, s);
  }

  /** The cells one after the other. */
  function PutRow(ts: seq<Type>, cs: seq<Cell>): Bytes {
    if ts == [] || cs == [] then [] else PutCell(ts[0], cs[0]) + PutRow(ts[1..], cs[1..])
  }

  function ReadRow(ts: seq<Type>, s: Bytes): Read<seq<Cell>> {
    if ts == [] then Ok([], s)
    else
      match ReadCell(ts[0], s)
      case Fail(e) => Fail(e)
      case Ok(c, more) =>
        match ReadRow(ts[1..], more)
        case Fail(e) => Fail(e)
        case Ok(cs, rest) => Ok([c] + cs, rest)
  }

  predicate RowOk(ts: seq<Type>, cs: seq<Cell>) {
    |ts| == |cs| && forall i :: 0 <= i < |ts| ==> CellOk(ts[i], cs[i])
  }

  lemma RowStep(ts: seq<Type>, a: Bytes, rest: Bytes, s: Bytes, c: Cell, cs: seq<Cell>)
    requires ts != [] && ReadCell(ts[0], a + (rest + s)) == Ok(c, rest + s) && ReadRow(ts[1..], rest + s) == Ok(cs, s)
    ensures ReadRow(ts, a + rest + s) == Ok([c] + cs, s)
  {
    Regroup(a, rest, s);
  }

  lemma RowTail(ts: seq<Type>, cs: seq<Cell>)
    requires RowOk(ts, cs) && ts != []
    ensures CellOk(ts[0], cs[0]) && RowOk(ts[1..], cs[1..]) && [cs[0]] + cs[1..] == cs
  {
  }

  lemma {:induction false} RowBack(ts: seq<Type>, cs: seq<Cell>, s: Bytes)
    requires RowOk(ts, cs)
    ensures ReadRow(ts, PutRow(ts, cs) + s) == Ok(cs, s)
    decreases |ts|
  {
    if ts == [] {
      assert PutRow(ts, cs) + s == s;
    } else {
      var a, rest := PutCell(ts[0], cs[0]), PutRow(ts[1..], cs[1..]);
      RowTail(ts, cs);
      CellBack(ts[0], cs[0], rest + s);
      RowBack(ts[1..], cs[1..], s);
      RowStep(ts, a, rest, s, cs[0], cs[1..]);
    }
  }
}
