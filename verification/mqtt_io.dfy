/** The cursor that reads the wire format and the buffer that writes it, updated in place. */
module MqttIo {
  import opened Common
  import opened Parsing
  import opened MqttWire
  import Utf8

  datatype Result<+T> = Value(v: T) | Error(e: Parsing.Error)

  /** A cursor did what a reader on octets does: the value and what is left, or the same error. */
  ghost predicate Agrees<T>(r: Result<T>, left: Bytes, spec: Read<T>) {
    match spec
    case Ok(v, rest) => r == Value(v) && left == rest
    case Fail(e) => r == Error(e)
  }

  lemma DropMore(s: Bytes, i: nat, j: nat)
    requires i + j <= |s|
    ensures s[i..][j..] == s[i + j..]
  {
  }

  class Reader {
    const buf: Bytes
    var pos: nat

    ghost predicate Valid()
      reads this
    {
      pos <= |buf|
    }

    function Rest(): Bytes
      requires Valid()
      reads this
    {
      buf[pos..]
    }

    constructor (buf: Bytes)
      ensures Valid() && Rest() == buf
    {
      this.buf, pos := buf, 0;
    }

    method U8() returns (r: Result<byte>)
      requires Valid()
      modifies this
      ensures Valid() && pos >= old(pos) && Agrees(r, Rest(), ReadU8(old(Rest())))
    {
      if |buf| - pos < 1 {
        return Error(Incomplete);
      }
      r := Value(buf[pos]);
      DropMore(buf, pos, 1);
      pos := pos + 1;
    }

    method U16() returns (r: Result<nat>)
      requires Valid()
      modifies this
      ensures Valid() && pos >= old(pos) && Agrees(r, Rest(), ReadU16(old(Rest())))
    {
      if |buf| - pos < 2 {
        return Error(Incomplete);
      }
      var hi: int := buf[pos];
      r := Value(hi * 256 + buf[pos + 1]);
      DropMore(buf, pos, 2);
      pos := pos + 2;
    }

    method U32() returns (r: Result<nat>)
      requires Valid()
      modifies this
      ensures Valid() && pos >= old(pos) && Agrees(r, Rest(), ReadU32(old(Rest())))
    {
      if |buf| - pos < 4 {
        return Error(Incomplete);
      }
      var b3: int, b2: int, b1: int := buf[pos], buf[pos + 1], buf[pos + 2];
      r := Value(((b3 * 256 + b2) * 256 + b1) * 256 + buf[pos + 3]);
      DropMore(buf, pos, 4);
      pos := pos + 4;
    }

    method Binary() returns (r: Result<Bytes>)
      requires Valid()
      modifies this
      ensures Valid() && pos >= old(pos) && Agrees(r, Rest(), ReadBin(old(Rest())))
    {
      ghost var s := Rest();
      var len := U16();
      if len.Error? {
        return Error(len.e);
      }
      if |buf| - pos < len.v {
        return Error(Incomplete);
      }
      r := Value(buf[pos..pos + len.v]);
      DropMore(buf, pos, len.v);
      DropMore(s, 2, len.v);
      assert s[2..][..len.v] == s[2..2 + len.v] == buf[pos..pos + len.v];
      pos := pos + len.v;
    }

    method String() returns (r: Result<Bytes>)
      requires Valid()
      modifies this
      ensures Valid() && pos >= old(pos) && Agrees(r, Rest(), ReadStr(old(Rest())))
    {
      r := Binary();
      if r.Value? && !Utf8.Valid(r.v) {
        return Error(Malformed);
      }
    }

    /** Digit by digit, the least significant first. */
    method Varint() returns (r: Result<nat>)
      requires Valid()
      modifies this
      ensures Valid() && pos >= old(pos) && Agrees(r, Rest(), ReadVar(old(Rest())))
    {
      ghost var s := Rest();
      var multiplier: int, value: int, consumed := 1, 0, 0;
      while true
        invariant Valid() && pos >= old(pos) && consumed < 4
        invariant Resumes(s, value, multiplier, Rest(), consumed)
        decreases 4 - consumed
      {
        ghost var here := Rest();
        var b := U8();
        if b.Error? {
          return Error(b.e);
        }
        var digit: int := b.v;
        if digit < 128 {
          return Value(value + digit * multiplier);
        }
        if consumed + 1 >= 4 {
          return Error(Malformed);
        }
        ResumesNext(s, value, multiplier, here, consumed, digit - 128);
        value := value + (digit - 128) * multiplier;
        multiplier := multiplier * 128;
        consumed := consumed + 1;
      }
    }
  
    method Typed(kind: Kind) returns (r: Result<Value>)
      requires Valid()
      modifies this
      ensures Valid() && pos >= old(pos) && Agrees(r, Rest(), ReadValue(kind, old(Rest())))
    {
      match kind
      case KU8 =>
        var n := U8();
        r := match n case Value(b) => Value(Num(b)) case Error(e) => Error(e);
      case KU16 =>
        var n := U16();
        r := match n case Value(i) => Value(Num(i)) case Error(e) => Error(e);
      case KU32 =>
        var n := U32();
        r := match n case Value(i) => Value(Num(i)) case Error(e) => Error(e);
      case KVar =>
        var n := Varint();
        r := match n case Value(i) => Value(Num(i)) case Error(e) => Error(e);
      case KStr =>
        var b := String();
        r := match b case Value(t) => Value(Text(t)) case Error(e) => Error(e);
      case KBin =>
        var b := Binary();
        r := match b case Value(t) => Value(Text(t)) case Error(e) => Error(e);
      case KUser =>
        r := Error(Malformed);
      case KNone =>
        r := Error(Malformed);
    }

    method UserItem() returns (r: Result<Item>)
      requires Valid()
      modifies this
      ensures Valid() && pos >= old(pos) && Agrees(r, Rest(), ReadUser(old(Rest())))
    {
      var name := String();
      if name.Error? {
        return Error(name.e);
      }
      var text := String();
      if text.Error? {
        return Error(text.e);
      }
      r := Value(User(name.v, text.v));
    }

    method OneItem() returns (r: Result<Item>)
      requires Valid()
      modifies this
      ensures Valid() && pos >= old(pos) && (r.Value? ==> pos > old(pos)) && Agrees(r, Rest(), ReadItem(old(Rest())))
    {
      var id := U8();
      if id.Error? {
        return Error(id.e);
      }
      if id.v == USER_PROPERTY {
        r := UserItem();
      } else {
        var v := Typed(KindOf(id.v));
        r := match v case Value(x) => Value(Field(id.v, x)) case Error(e) => Error(e);
      }
    }

    /** Items until the announced end, later fields replacing earlier ones. */
    method Props() returns (r: Result<Properties>)
      requires Valid()
      modifies this
      ensures Valid() && pos >= old(pos) && Agrees(r, Rest(), ReadProps(old(Rest())))
    {
      var len := Varint();
      if len.Error? {
        return Error(len.e);
      }
      if |buf| - pos < len.v {
        return Error(Incomplete);
      }
      var end, props := pos + len.v, NO_PROPERTIES;
      ghost var s, stop, items := Rest(), |buf| - end, [];
      ExtendsStart(s, stop);
      while pos < end
        invariant Valid() && old(pos) <= pos && props == Collect(NO_PROPERTIES, items)
        invariant Extends(s, stop, items, Rest())
        decreases |buf| - pos
      {
        ghost var here := Rest();
        var item := OneItem();
        if item.Error? {
          return Error(item.e);
        }
        ExtendsNext(s, stop, items, here, item.v, Rest());
        CollectConcat(NO_PROPERTIES, items, [item.v]);
        props := With(props, item.v);
        items := items + [item.v];
      }
      ExtendsEnd(s, stop, items, Rest());
      r := Value(props);
    }
  }

  /** The items at `s` are `items` and then those at `rest`. */
  ghost predicate Extends(s: Bytes, stop: nat, items: seq<Item>, rest: Bytes) {
    match ReadItems(rest, stop)
    case Ok(more, left) => ReadItems(s, stop) == Ok(items + more, left)
    case Fail(e) => ReadItems(s, stop) == Fail(e)
  }

  lemma ExtendsStart(s: Bytes, stop: nat)
    ensures Extends(s, stop, [], s)
  {
    if ReadItems(s, stop).Ok? {
      assert [] + ReadItems(s, stop).value == ReadItems(s, stop).value;
    }
  }

  lemma ExtendsNext(s: Bytes, stop: nat, items: seq<Item>, rest: Bytes, item: Item, more: Bytes)
    requires |rest| > stop && ReadItem(rest) == Ok(item, more) && Extends(s, stop, items, rest)
    ensures Extends(s, stop, items + [item], more)
  {
    if ReadItems(more, stop).Ok? {
      var xs := ReadItems(more, stop).value;
      assert items + ([item] + xs) == items + [item] + xs;
    }
  }

  lemma ExtendsEnd(s: Bytes, stop: nat, items: seq<Item>, rest: Bytes)
    requires |rest| <= stop && Extends(s, stop, items, rest)
    ensures ReadItems(s, stop) == Ok(items, rest)
  {
    assert items + [] == items;
  }

  /** The integer at `s` is `value` plus `multiplier` times the one whose remaining digits are at `rest`. */
  ghost predicate Resumes(s: Bytes, value: int, multiplier: int, rest: Bytes, k: nat)
    requires k < 4
  {
    match VarFrom(rest, k)
    case Ok(v, left) => VarFrom(s, 0).Ok? && VarFrom(s, 0).value == value + v * multiplier && VarFrom(s, 0).rest == left
    case Fail(e) => VarFrom(s, 0) == Fail(e)
  }

  lemma ResumesNext(s: Bytes, value: int, multiplier: int, rest: Bytes, k: nat, d: int)
    requires k < 3 && rest != [] && rest[0] == 128 + d && 0 <= d && Resumes(s, value, multiplier, rest, k)
    ensures Resumes(s, value + d * multiplier, multiplier * 128, rest[1..], k + 1)
  {
    var next := VarFrom(rest[1..], k + 1);
    if next.Ok? {
      assert VarFrom(rest, k).value == d + 128 * next.value;
      Distribute(value, d, next.value, multiplier);
    }
  }

  lemma Distribute(value: int, d: int, v: int, m: int)
    ensures value + (d + 128 * v) * m == value + d * m + v * (m * 128)
  {
  }

  // --- writing -----------------------------------------------------------

  class Writer {
    var buf: Bytes

    constructor ()
      ensures buf == []
    {
      buf := [];
    }

    method U16(n: nat)
      modifies this
      ensures buf == old(buf) + PutU16(n)
    {
      buf := buf + [(n / 256) % 256, n % 256];
    }

    method Binary(b: Bytes)
      modifies this
      ensures buf == old(buf) + PutBin(b)
    {
      U16(|b|);
      Regroup(old(buf), PutU16(|b|), b);
      buf := buf + b;
    }

    /** Seven bits at a time, the least significant first. */
    method Varint(n: nat)
      modifies this
      ensures buf == old(buf) + PutVar(n)
    {
      var v := n;
      ghost var done: Bytes := [];
      while v >= 128
        invariant buf == old(buf) + done && PutVar(n) == done + PutVar(v)
      {
        Regroup(done, [v % 128 + 128], PutVar(v / 128));
        Regroup(old(buf), done, [v % 128 + 128]);
        done := done + [v % 128 + 128];
        buf := buf + [v % 128 + 128];
        v := v / 128;
      }
      Regroup(old(buf), done, [v]);
      buf := buf + [v];
    }

    method Props(p: Properties)
      modifies this
      ensures buf == old(buf) + PutProps(p)
    {
      var block := WriteItems(ItemsFrom(p, 1));
      Varint(|block| % U32_SPACE);
      Regroup(old(buf), PutVar(|block| % U32_SPACE), block);
      buf := buf + block;
    }
  }

  /** The items one after the other. */
  method WriteItems(items: seq<Item>) returns (out: Bytes)
    ensures out == PutAll(PutItem, items)
  {
    out := [];
    for i := 0 to |items|
      invariant out == PutAll(PutItem, items[..i])
    {
      assert items[..i + 1] == items[..i] + [items[i]];
      PutAllConcat(PutItem, items[..i], [items[i]]);
      OneItem(items[i]);
      out := out + PutItem(items[i]);
    }
    assert items[..|items|] == items;
  }

  lemma OneItem(item: Item)
    ensures PutAll(PutItem, [item]) == PutItem(item)
  {
    assert [item][1..] == [] && PutItem(item) + [] == PutItem(item);
  }
}
