/** How many octets a property block takes when it is written again, against how many were read. */
module MqttGrowth {
  import opened Common
  import opened Parsing
  import opened MqttWire
  import opened MqttSound

  // --- variable byte integers --------------------------------------------

  /** `k` digits hold exactly the numbers below the `k`-th power. */
  lemma {:induction false} VarWidthIff(n: nat, k: nat)
    requires k > 0
    ensures |PutVar(n)| <= k <==> n < Power128(k)
    decreases k
  {
    PowerAtLeast(k);
    if n >= 128 && k > 1 {
      VarWidthIff(n / 128, k - 1);
    }
  }

  /** The digits read end in a zero that is not the only one. */
  predicate Padded(s: Bytes) {
    ReadVar(s).Ok? && |s| - |ReadVar(s).rest| > 1 && s[|s| - |ReadVar(s).rest| - 1] == 0
  }

  lemma {:induction false} VarReadFrom(s: Bytes, k: nat)
    requires k < 4 && VarFrom(s, k).Ok?
    ensures var used := |s| - |VarFrom(s, k).rest|;
      && VarFrom(s, k).value < Power128(used)
      && (|PutVar(VarFrom(s, k).value)| == used <==> !(used > 1 && s[used - 1] == 0))
      && |PutVar(VarFrom(s, k).value)| <= used
    decreases 4 - k
  {
    if s[0] < 128 {
      assert Power128(1) == 128;
    } else {
      var tail := VarFrom(s[1..], k + 1);
      VarReadFrom(s[1..], k + 1);
      var used := |s| - |tail.rest|;
      assert s[used - 1] == s[1..][used - 2];
      if tail.value > 0 {
        DigitAhead(s[0] - 128, tail.value);
      }
    }
  }

  lemma DigitAhead(low: nat, v: nat)
    requires low < 128 && v > 0
    ensures |PutVar(low + 128 * v)| == 1 + |PutVar(v)|
  {
    assert (low + 128 * v) / 128 == v;
  }

  /** A number that was read is written in no more octets, and in as many exactly when it was not padded. */
  lemma VarRead(s: Bytes)
    requires ReadVar(s).Ok?
    ensures var used := |s| - |ReadVar(s).rest|;
      && ReadVar(s).value < Power128(used) && |PutVar(ReadVar(s).value)| <= used
      && (|PutVar(ReadVar(s).value)| == used <==> !Padded(s))
  {
    VarReadFrom(s, 0);
  }

  // --- items -------------------------------------------------------------

  const SUBSCRIPTION_IDENTIFIER: byte := 0x0B

  /** A subscription identifier, the one variable byte integer among the properties, that is padded. */
  predicate PaddedItem(s: Bytes) { s != [] && s[0] == SUBSCRIPTION_IDENTIFIER && Padded(s[1..]) }

  lemma BinRead(s: Bytes)
    requires ReadBin(s).Ok?
    ensures |PutBin(ReadBin(s).value)| == |s| - |ReadBin(s).rest| <= 1 + U16_SPACE
  {
  }

  lemma ValueRead(kind: Kind, s: Bytes)
    requires ReadValue(kind, s).Ok?
    ensures var used := |s| - |ReadValue(kind, s).rest|;
      && |PutValue(kind, ReadValue(kind, s).value)| <= used <= 1 + U16_SPACE
      && (|PutValue(kind, ReadValue(kind, s).value)| == used <==> !(kind.KVar? && Padded(s)))
  {
    match kind
    case KU8 =>
    case KU16 =>
    case KU32 =>
    case KVar => VarRead(s);
    case KStr => BinRead(s);
    case KBin => BinRead(s);
  }

  lemma UserRead(s: Bytes)
    requires ReadUser(s).Ok?
    ensures 1 + |s| - |ReadUser(s).rest| == |PutItem(ReadUser(s).value)| <= 3 + 2 * U16_SPACE
  {
    BinRead(s);
    BinRead(ReadStr(s).rest);
  }

  /** An item that was read is written in no more octets, and in as many exactly when it was not padded. */
  lemma ItemRead(s: Bytes)
    requires ReadItem(s).Ok?
    ensures var used := |s| - |ReadItem(s).rest|;
      && |PutItem(ReadItem(s).value)| <= used <= 3 + 2 * U16_SPACE
      && (|PutItem(ReadItem(s).value)| == used <==> !PaddedItem(s))
  {
    if s[0] == USER_PROPERTY {
      UserRead(s[1..]);
    } else {
      ValueRead(KindOf(s[0]), s[1..]);
    }
  }

  /** Some item on the way to `stop` is padded. */
  predicate HasPadding(s: Bytes, stop: nat)
    decreases |s|
  {
    |s| > stop && ReadItem(s).Ok? && (PaddedItem(s) || HasPadding(ReadItem(s).rest, stop))
  }

  function Length(items: seq<Item>): nat { |PutAll(PutItem, items)| }

  lemma LengthCons(item: Item, items: seq<Item>)
    ensures Length([item] + items) == |PutItem(item)| + Length(items)
  {
    assert ([item] + items)[1..] == items;
  }

  lemma ItemsStep(s: Bytes, stop: nat)
    requires |s| > stop && ReadItems(s, stop).Ok?
    ensures ReadItem(s).Ok? && ReadItems(ReadItem(s).rest, stop).Ok?
    ensures var tail := ReadItems(ReadItem(s).rest, stop);
      ReadItems(s, stop).rest == tail.rest && ReadItems(s, stop).value == [ReadItem(s).value] + tail.value
  {
  }

  /** Items that were read, against their own octets. */
  ghost predicate ItemsMeasured(s: Bytes, stop: nat) {
    var r := ReadItems(s, stop);
    r.Ok? ==>
      && Length(r.value) <= |s| - |r.rest| && (Length(r.value) == |s| - |r.rest| <==> !HasPadding(s, stop))
      && |s| - |r.rest| <= (if |s| > stop then |s| - stop + 3 + 2 * U16_SPACE else 0)
  }

  lemma MeasuredMore(s: Bytes, stop: nat)
    requires |s| > stop && ReadItems(s, stop).Ok? && ReadItem(s).Ok? && ItemsMeasured(ReadItem(s).rest, stop)
    ensures ItemsMeasured(s, stop)
  {
    ItemsStep(s, stop);
    ItemRead(s);
    LengthCons(ReadItem(s).value, ReadItems(ReadItem(s).rest, stop).value);
  }

  lemma {:induction false} ItemsRead(s: Bytes, stop: nat)
    ensures ItemsMeasured(s, stop)
    decreases |s|
  {
    if ReadItems(s, stop).Ok? && |s| > stop {
      ItemsStep(s, stop);
      ItemsRead(ReadItem(s).rest, stop);
      MeasuredMore(s, stop);
    }
  }

  // --- blocks ------------------------------------------------------------

  function LengthAt(p: Properties, id: byte): nat { Length(ItemsAt(p, id)) }

  lemma LengthFrom(p: Properties, id: byte)
    requires id <= LAST_PROPERTY
    ensures Length(ItemsFrom(p, id)) == LengthAt(p, id) + Length(ItemsFrom(p, id + 1))
  {
    PutAllConcat(PutItem, ItemsAt(p, id), ItemsFrom(p, id + 1));
  }

  function Place(item: Item): byte { if item.User? then USER_PROPERTY else item.id }

  predicate Placed(item: Item) {
    1 <= Place(item) <= LAST_PROPERTY && (item.User? <==> Place(item) == USER_PROPERTY)
  }

  lemma OkPlaced(item: Item)
    requires ItemOk(item)
    ensures Placed(item)
  {
  }

  /** The octets of the field that an item replaces. */
  function Replaced(p: Properties, item: Item): nat {
    if item.Field? && item.id in p.fields then |PutItem(Field(item.id, p.fields[item.id]))| else 0
  }

  lemma {:induction false} UsersSnoc(users: seq<(Bytes, Bytes)>, u: (Bytes, Bytes))
    ensures UserItems(users + [u]) == UserItems(users) + [User(u.0, u.1)]
    decreases |users|
  {
    if users == [] {
      assert [u][1..] == [];
    } else {
      assert (users + [u])[1..] == users[1..] + [u];
      UsersSnoc(users[1..], u);
    }
  }

  lemma OneLength(item: Item)
    ensures Length([item]) == |PutItem(item)|
  {
    LengthCons(item, []);
    assert [item] + [] == [item];
  }

  lemma WithHere(p: Properties, item: Item)
    requires Placed(item)
    ensures LengthAt(With(p, item), Place(item)) + Replaced(p, item) == LengthAt(p, Place(item)) + |PutItem(item)|
  {
    if item.User? {
      UsersSnoc(p.users, (item.name, item.text));
      PutAllConcat(PutItem, UserItems(p.users), [item]);
      OneLength(item);
    } else {
      OneLength(item);
      if item.id in p.fields {
        OneLength(Field(item.id, p.fields[item.id]));
      }
    }
  }

  lemma WithElsewhere(p: Properties, item: Item, id: byte)
    requires id != Place(item)
    ensures LengthAt(With(p, item), id) == LengthAt(p, id)
  {
  }

  /** From its place on an item adds its own octets, less those of the field it replaces. */
  ghost predicate Adds(p: Properties, item: Item, id: byte) {
    Length(ItemsFrom(With(p, item), id)) + (if id <= Place(item) then Replaced(p, item) else 0) ==
    Length(ItemsFrom(p, id)) + (if id <= Place(item) then |PutItem(item)| else 0)
  }

  lemma AddsBefore(p: Properties, item: Item, id: byte)
    requires id <= LAST_PROPERTY && id != Place(item) && Adds(p, item, id + 1)
    ensures Adds(p, item, id)
  {
    LengthFrom(p, id);
    LengthFrom(With(p, item), id);
    WithElsewhere(p, item, id);
  }

  lemma AddsHere(p: Properties, item: Item, id: byte)
    requires Placed(item) && id <= LAST_PROPERTY && id == Place(item) && Adds(p, item, id + 1)
    ensures Adds(p, item, id)
  {
    LengthFrom(p, id);
    LengthFrom(With(p, item), id);
    WithHere(p, item);
  }

  lemma {:induction false} WithFrom(p: Properties, item: Item, id: byte)
    requires Placed(item) && id <= LAST_PROPERTY + 1
    ensures Adds(p, item, id)
    decreases 256 - id
  {
    if id == LAST_PROPERTY + 1 {
      assert ItemsFrom(p, id) == [] && ItemsFrom(With(p, item), id) == [];
    } else {
      WithFrom(p, item, id + 1);
      if id == Place(item) {
        AddsHere(p, item, id);
      } else {
        AddsBefore(p, item, id);
      }
    }
  }

  lemma WithLength(p: Properties, item: Item)
    requires ItemOk(item)
    ensures |Block(With(p, item))| + Replaced(p, item) == |Block(p)| + |PutItem(item)|
  {
    OkPlaced(item);
    WithFrom(p, item, 1);
  }

  /** No field comes twice, nor is it one of `seen`. */
  predicate Once(items: seq<Item>, seen: set<byte>) {
    items == [] ||
    ((items[0].Field? ==> items[0].id !in seen) && Once(items[1..], if items[0].Field? then seen + {items[0].id} else seen))
  }

  /** What is collected is written in no more octets than the items, and in as many when no field repeats. */
  lemma {:induction false} CollectLength(p: Properties, items: seq<Item>)
    requires AllOk(items)
    ensures |Block(Collect(p, items))| <= |Block(p)| + Length(items)
    ensures Once(items, p.fields.Keys) ==> |Block(Collect(p, items))| == |Block(p)| + Length(items)
    decreases |items|
  {
    if items != [] {
      var q := With(p, items[0]);
      assert items == [items[0]] + items[1..];
      assert ItemOk(items[0]) && AllOk(items[1..]);
      WithLength(p, items[0]);
      LengthCons(items[0], items[1..]);
      CollectLength(q, items[1..]);
      assert q.fields.Keys == if items[0].Field? then p.fields.Keys + {items[0].id} else p.fields.Keys;
    }
  }

  // --- a block written again ----------------------------------------------

  /** The items of a block, up to the first that ends at or past the announced length. */
  function ItemsOf(s: Bytes): Read<seq<Item>> {
    match ReadVar(s)
    case Fail(e) => Fail(e)
    case Ok(len, more) => if |more| < len then Fail(Incomplete) else ReadItems(more, |more| - len)
  }

  /** The octets of the items, announced or not. */
  function Used(s: Bytes): int
    requires ReadProps(s).Ok?
  {
    |ReadVar(s).rest| - |ReadProps(s).rest|
  }

  /** The last value ends where the block is said to end. */
  predicate EndsAsAnnounced(s: Bytes) {
    ReadProps(s).Ok? ==> Used(s) == ReadVar(s).value
  }

  /** No field is repeated and no subscription identifier padded. */
  predicate NothingDropped(s: Bytes) {
    ItemsOf(s).Ok? ==> Once(ItemsOf(s).value, {}) && !HasPadding(ReadVar(s).rest, |ReadVar(s).rest| - ReadVar(s).value)
  }

  lemma EmptyBlock()
    ensures Block(NO_PROPERTIES) == []
  {
    EmptyFrom(1);
  }

  lemma {:induction false} EmptyFrom(id: byte)
    ensures ItemsFrom(NO_PROPERTIES, id) == []
    decreases 256 - id
  {
    if id <= LAST_PROPERTY {
      EmptyFrom(id + 1);
    }
  }

  lemma CollectedLength(items: seq<Item>)
    requires AllOk(items)
    ensures |Block(Collect(NO_PROPERTIES, items))| <= Length(items)
    ensures Once(items, {}) ==> |Block(Collect(NO_PROPERTIES, items))| == Length(items)
  {
    EmptyBlock();
    CollectLength(NO_PROPERTIES, items);
    assert NO_PROPERTIES.fields.Keys == {};
  }

  lemma ItemsOfBlock(s: Bytes)
    requires ReadProps(s).Ok?
    ensures ItemsOf(s).Ok? && AllOk(ItemsOf(s).value)
    ensures ReadProps(s) == Ok(Collect(NO_PROPERTIES, ItemsOf(s).value), ItemsOf(s).rest)
  {
    var len, more := ReadVar(s).value, ReadVar(s).rest;
    PropsStep(s, len, more);
    ItemsSound(more, |more| - len);
  }

  lemma ItemsUsed(s: Bytes)
    requires ItemsOf(s).Ok?
    ensures var used := |ReadVar(s).rest| - |ItemsOf(s).rest|;
      Length(ItemsOf(s).value) <= used < U32_SPACE && (NothingDropped(s) ==> Length(ItemsOf(s).value) == used)
  {
    VarRange(s);
    ItemsRead(ReadVar(s).rest, |ReadVar(s).rest| - ReadVar(s).value);
  }

  lemma BlockRead(s: Bytes)
    requires ReadProps(s).Ok?
    ensures |Block(ReadProps(s).value)| <= Used(s) < U32_SPACE
    ensures NothingDropped(s) ==> |Block(ReadProps(s).value)| == Used(s)
  {
    ItemsOfBlock(s);
    ItemsUsed(s);
    CollectedLength(ItemsOf(s).value);
  }

  lemma PrefixedLength(b: Bytes, k: nat)
    requires |b| < U32_SPACE && k > 0
    ensures |Prefixed(b)| <= k + |b| <==> |b| < Power128(k)
  {
    assert |b| % U32_SPACE == |b|;
    VarWidthIff(|b|, k);
  }

  lemma ShorterPrefix(b: Bytes, n: nat, k: nat)
    requires |b| <= n < U32_SPACE && n < Power128(k) && k > 0
    ensures |Prefixed(b)| <= k + n
  {
    PrefixedLength(b, k);
  }

  lemma PropsLength(p: Properties, n: nat, k: nat)
    requires |Block(p)| <= n < U32_SPACE && n < Power128(k) && k > 0
    ensures |PutProps(p)| <= k + n
  {
    ShorterPrefix(Block(p), n, k);
  }

  /** The octets a block was read from: a length field of `k` octets with room for `n`, and `n` octets. */
  lemma ReadFrom(s: Bytes, n: nat, k: nat)
    requires ReadProps(s).Ok? && EndsAsAnnounced(s) && n == Used(s) && k == |s| - |ReadVar(s).rest|
    ensures n < Power128(k) && k > 0 && k + n == |s| - |ReadProps(s).rest|
  {
    VarRead(s);
  }

  /** A block that ends as announced takes no more octets when it is written again than were read. */
  lemma BlockNeverGrows(s: Bytes)
    requires ReadProps(s).Ok? && EndsAsAnnounced(s)
    ensures |PutProps(ReadProps(s).value)| <= |s| - |ReadProps(s).rest|
  {
    var n, k := Used(s), |s| - |ReadVar(s).rest|;
    BlockRead(s);
    ReadFrom(s, n, k);
    PropsLength(ReadProps(s).value, n, k);
  }

  /**
   * A block in which nothing is dropped, whether or not it ends as announced, takes no more octets
   * exactly when the length field it was read with has room for all its octets.
   */
  lemma BlockGrowsIff(s: Bytes)
    requires ReadProps(s).Ok? && NothingDropped(s)
    ensures |PutProps(ReadProps(s).value)| <= |s| - |ReadProps(s).rest| <==> Used(s) < Power128(|s| - |ReadVar(s).rest|)
  {
    BlockRead(s);
    PrefixedLength(Block(ReadProps(s).value), |s| - |ReadVar(s).rest|);
  }

  // --- blocks that grow --------------------------------------------------

  lemma OneItem(item: Item, t: Bytes, stop: nat)
    requires ItemOk(item) && |t| <= stop < |PutItem(item) + t|
    ensures ReadItems(PutItem(item) + t, stop) == Ok([item], t)
    ensures item.User? ==> !HasPadding(PutItem(item) + t, stop)
  {
    ItemBack(item);
    assert ReadItem(PutItem(item) + t) == Ok(item, t);
    assert ReadMany(ReadItem, t, stop) == Ok([], t);
    assert [item] + [] == [item];
  }

  lemma OneAhead(more: Bytes)
    ensures ReadVar([1] + more) == Ok(1, more)
  {
    assert ([1] + more)[1..] == more;
  }

  lemma UserOnce(item: Item)
    requires item.User?
    ensures Once([item], {})
  {
    assert [item][1..] == [];
  }

  lemma OverrunRead(item: Item, t: Bytes, s: Bytes, more: Bytes)
    requires item.User? && ItemOk(item) && more == PutItem(item) + t && ReadVar(s) == Ok(1, more)
    ensures ReadProps(s).Ok? && ReadProps(s).rest == t && NothingDropped(s)
  {
    OneItem(item, t, |more| - 1);
    UserOnce(item);
    PropsStep(s, 1, more);
  }

  /** A user property of at least 128 octets in a block that announces one octet. */
  lemma OverrunGrows(item: Item, t: Bytes)
    requires item.User? && ItemOk(item) && |PutItem(item)| >= 128
    ensures var s := [1] + (PutItem(item) + t);
      ReadProps(s).Ok? && ReadProps(s).rest == t && |PutProps(ReadProps(s).value)| > |s| - |t|
  {
    var s := [1] + (PutItem(item) + t);
    OneAhead(PutItem(item) + t);
    OverrunRead(item, t, s, PutItem(item) + t);
    BlockGrowsIff(s);
    assert Power128(1) == 128;
  }
}
