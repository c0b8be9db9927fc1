/**
 * AMQP typed fields: bits packed into octets from the least significant side, integers, short and
 * long strings. A field that is not a bit closes the octet under construction.
 */
module AmqpFields {
  import opened Common
  import opened Parsing

  datatype Kind = KBit | KNum(width: nat) | KShort | KLong

  datatype Field = Bit(b: bool) | Num(width: nat, v: nat) | Short(s: Bytes) | Long(s: Bytes)

  const U32_SPACE: nat := 0x1_0000_0000

  function KindOf(f: Field): Kind {
    match f
    case Bit(_) => KBit
    case Num(w, _) => KNum(w)
    case Short(_) => KShort
    case Long(_) => KLong
  }

  function Power256(w: nat): nat { if w == 0 then 1 else 256 * Power256(w - 1) }

  predicate Fits(f: Field) {
    match f
    case Bit(_) => true
    case Num(w, v) => v < Power256(w)
    case Short(s) => |s| < 256
    case Long(s) => |s| < U32_SPACE
  }

  // --- whole octets ------------------------------------------------------

  /** Big-endian, `w` octets. */
  function PutBe(w: nat, v: nat): (s: Bytes)
    ensures |s| == w
  {
    if w == 0 then [] else PutBe(w - 1, v / 256) + [v % 256]
  }

  function ReadBe(s: Bytes): nat {
    if s == [] then 0
    else
      var low: int := s[|s| - 1];
      256 * ReadBe(s[..|s| - 1]) + low
  }

  lemma {:induction false} BeBack(w: nat, v: nat)
    requires v < Power256(w)
    ensures ReadBe(PutBe(w, v)) == v
  {
    if w > 0 {
      BeBack(w - 1, v / 256);
      assert PutBe(w, v)[..w - 1] == PutBe(w - 1, v / 256);
    }
  }

  /** A field that is not a bit; lengths are cut to their width. */
  function Octets(f: Field): Bytes {
    match f
    case Bit(_) => []
    case Num(w, v) => PutBe(w, v)
    case Short(s) => PutBe(1, |s|) + s
    case Long(s) => PutBe(4, |s|) + s
  }

  function ReadNum(w: nat, s: Bytes): Read<nat> {
    if |s| < w then Fail(Incomplete) else Ok(ReadBe(s[..w]), s[w..])
  }

  function Counted(n: Read<nat>): Read<Bytes> {
    match n
    case Fail(e) => Fail(e)
    case Ok(len, rest) => if |rest| < len then Fail(Incomplete) else Ok(rest[..len], rest[len..])
  }

  function ReadOctets(k: Kind, s: Bytes): Read<Field> {
    match k
    case KBit => Fail(Malformed)
    case KNum(w) => (match ReadNum(w, s) case Ok(n, rest) => Ok(Num(w, n), rest) case Fail(e) => Fail(e))
    case KShort => (match Counted(ReadNum(1, s)) case Ok(b, rest) => Ok(Short(b), rest) case Fail(e) => Fail(e))
    case KLong => (match Counted(ReadNum(4, s)) case Ok(b, rest) => Ok(Long(b), rest) case Fail(e) => Fail(e))
  }

  lemma NumBack(w: nat, v: nat, t: Bytes)
    requires v < Power256(w)
    ensures ReadNum(w, PutBe(w, v) + t) == Ok(v, t)
  {
    var s := PutBe(w, v) + t;
    BeBack(w, v);
    assert s[..w] == PutBe(w, v) && s[w..] == t;
  }

  lemma CountedBack(w: nat, b: Bytes, t: Bytes)
    requires |b| < Power256(w)
    ensures Counted(ReadNum(w, PutBe(w, |b|) + (b + t))) == Ok(b, t)
  {
    NumBack(w, |b|, b + t);
    assert (b + t)[..|b|] == b && (b + t)[|b|..] == t;
  }

  lemma Powers()
    ensures Power256(1) == 256 && Power256(4) == U32_SPACE
  {
    assert Power256(2) == 65_536;
  }

  lemma StringBack(w: nat, b: Bytes, t: Bytes)
    requires |b| < Power256(w)
    ensures Counted(ReadNum(w, PutBe(w, |b|) + b + t)) == Ok(b, t)
  {
    CountedBack(w, b, t);
    Regroup(PutBe(w, |b|), b, t);
  }

  lemma OctetsBack(f: Field, t: Bytes)
    requires Fits(f) && !f.Bit?
    ensures ReadOctets(KindOf(f), Octets(f) + t) == Ok(f, t)
  {
    Powers();
    match f
    case Num(w, v) => NumBack(w, v, t);
    case Short(s) => StringBack(1, s, t);
    case Long(s) => StringBack(4, s, t);
  }

  // --- writer ------------------------------------------------------------

  function Pow2(n: nat): (p: nat)
    ensures p > 0
  {
    if n == 0 then 1 else 2 * Pow2(n - 1)
  }

  /** Octets written, and the bits of the one under construction. */
  datatype Writing = Writing(buf: Bytes, low: nat, used: nat)

  predicate WriterOk(w: Writing) { w.used < 8 && w.low < Pow2(w.used) }

  lemma PowBounds(n: nat)
    requires n <= 8
    ensures Pow2(n) <= 256 && Pow2(8) == 256
  {
    assert Pow2(2) == 4 && Pow2(4) == 16 && Pow2(6) == 64 && Pow2(8) == 256;
    if n < 8 {
      PowGrows(n, 8);
    }
  }

  lemma {:induction false} PowGrows(a: nat, b: nat)
    requires a <= b
    ensures Pow2(a) <= Pow2(b)
    decreases b - a
  {
    if a < b {
      PowGrows(a, b - 1);
    }
  }

  function Closed(w: Writing): Bytes {
    if w.used > 0 then w.buf + [w.low % 256] else w.buf
  }

  function PutBit(w: Writing, b: bool): Writing {
    var low := w.low + (if b then Pow2(w.used) else 0);
    if w.used + 1 == 8 then Writing(w.buf + [low % 256], 0, 0) else Writing(w.buf, low, w.used + 1)
  }

  function Put(w: Writing, f: Field): Writing {
    if f.Bit? then PutBit(w, f.b) else Writing(Closed(w) + Octets(f), 0, 0)
  }

  function PutFields(w: Writing, fs: seq<Field>): Writing
    decreases |fs|
  {
    if fs == [] then w else PutFields(Put(w, fs[0]), fs[1..])
  }

  const NEW_WRITER := Writing([], 0, 0)

  function Written(fs: seq<Field>): Bytes { Closed(PutFields(NEW_WRITER, fs)) }

  // --- reader ------------------------------------------------------------

  /** Octets left, and the bits left of the last one taken. */
  datatype Reading = Reading(rest: Bytes, bits: nat, left: nat)

  /** A field and what is left behind it, or an error and what is left after it. */
  datatype Taken = Taken(f: Field, r: Reading) | Missing(error: Error, r: Reading)

  function TakeBit(r: Reading): Taken {
    if r.left == 0 then
      if r.rest == [] then Missing(Incomplete, r)
      else Taken(Bit(r.rest[0] % 2 == 1), Reading(r.rest[1..], r.rest[0] / 2, 7))
    else Taken(Bit(r.bits % 2 == 1), Reading(r.rest, r.bits / 2, r.left - 1))
  }

  /** How many octets of length come before a field's own. */
  function LengthWidth(k: Kind): nat { if k.KShort? then 1 else if k.KLong? then 4 else 0 }

  /** A string cut short has had its length taken. */
  function LeftBehind(k: Kind, s: Bytes): Bytes { if LengthWidth(k) <= |s| then s[LengthWidth(k)..] else s }

  function Take(r: Reading, k: Kind): Taken {
    if k.KBit? then TakeBit(r)
    else
      match ReadOctets(k, r.rest)
      case Fail(e) => Missing(e, Reading(LeftBehind(k, r.rest), r.bits, 0))
      case Ok(f, rest) => Taken(f, Reading(rest, r.bits, 0))
  }

  datatype AllTaken = AllTaken(fs: seq<Field>, r: Reading) | Stopped(error: Error)

  function TakeFields(r: Reading, ks: seq<Kind>): AllTaken
    decreases |ks|
  {
    if ks == [] then AllTaken([], r)
    else
      match Take(r, ks[0])
      case Missing(e, _) => Stopped(e)
      case Taken(f, next) =>
        match TakeFields(next, ks[1..])
        case Stopped(e) => Stopped(e)
        case AllTaken(fs, last) => AllTaken([f] + fs, last)
  }

  function Kinds(fs: seq<Field>): (ks: seq<Kind>)
    ensures |ks| == |fs|
  {
    if fs == [] then [] else [KindOf(fs[0])] + Kinds(fs[1..])
  }

  // --- round trip --------------------------------------------------------

  lemma PutBitOk(w: Writing, b: bool)
    requires WriterOk(w)
    ensures WriterOk(PutBit(w, b)) && w.low + (if b then Pow2(w.used) else 0) < Pow2(w.used + 1) <= 256
  {
    PowBounds(w.used + 1);
    assert Pow2(w.used + 1) == 2 * Pow2(w.used);
  }

  lemma PutOk(w: Writing, f: Field)
    requires WriterOk(w)
    ensures WriterOk(Put(w, f))
  {
    if f.Bit? {
      PutBitOk(w, f.b);
    }
  }

  /** What is written stays: whole octets as they are, and the bits of the open octet at its low end. */
  ghost predicate Keeps(w: Writing, out: Bytes) {
    w.buf <= out && (w.used > 0 ==> |out| > |w.buf| && out[|w.buf|] % Pow2(w.used) == w.low)
  }

  lemma KeepsClosed(w: Writing)
    requires WriterOk(w)
    ensures Keeps(w, Closed(w))
  {
    PowBounds(w.used);
  }

  lemma KeepsLonger(w: Writing, b: bool, out: Bytes)
    requires WriterOk(w) && Keeps(PutBit(w, b), out)
    ensures Keeps(w, out)
  {
    PutBitOk(w, b);
    var bit := if b then 1 else 0;
    var d := PutBit(w, b);
    if w.used + 1 == 8 {
      assert out[|w.buf|] == d.buf[|w.buf|];
      LowBits(w.low, bit, w.used, w.low + bit * Pow2(w.used));
    } else if w.used > 0 {
      LowBits(w.low, bit, w.used, out[|w.buf|]);
    }
  }

  /** An octet whose low `u + 1` bits are `low` and a further bit: its low `u` bits, and that bit. */
  lemma LowBits(low: nat, bit: nat, u: nat, o: nat)
    requires u < 8 && low < Pow2(u) && bit < 2 && o % Pow2(u + 1) == low + bit * Pow2(u)
    ensures o % Pow2(u) == low && (o / Pow2(u)) % 2 == bit && o / Pow2(u + 1) == (o / Pow2(u)) / 2
  {
    LowBitsAt(low, bit, Pow2(u), o);
  }

  lemma LowBitsAt(low: nat, bit: nat, p: nat, o: nat)
    requires p > 0 && low < p && bit < 2 && o % (2 * p) == low + bit * p
    ensures o % p == low && (o / p) % 2 == bit && o / (2 * p) == (o / p) / 2
  {
    var q := o / (2 * p);
    Whole(o, 2 * p);
    Spread(q, p, bit, low);
    DivIs(o, 2 * q + bit, p, low);
  }

  lemma Whole(o: nat, p: nat)
    requires p > 0
    ensures o == o / p * p + o % p
  {
  }

  lemma Spread(q: nat, p: nat, bit: nat, low: nat)
    requires bit < 2
    ensures q * (2 * p) + (low + bit * p) == (2 * q + bit) * p + low
  {
    assert q * (2 * p) == 2 * q * p;
    if bit == 1 {
      assert (2 * q + 1) * p == 2 * q * p + p;
    }
  }

  lemma DivIs(o: nat, q: nat, p: nat, r: nat)
    requires p > 0 && r < p && o == q * p + r
    ensures o / p == q && o % p == r
  {
    var k := o / p;
    assert o == p * k + o % p;
    if k < q {
      MulLe(p, k + 1, q);
    } else if k > q {
      MulLe(p, q + 1, k);
    }
  }

  /** The reader stands where the writer stood: same whole octets behind, same bits of the open octet used up. */
  ghost predicate Stands(w: Writing, r: Reading, out: Bytes) {
    if w.used == 0 then |w.buf| <= |out| && r.left == 0 && r.rest == out[|w.buf|..]
    else
      && |w.buf| < |out| && r.left == 8 - w.used && r.rest == out[|w.buf| + 1..]
      && r.bits == out[|w.buf|] / Pow2(w.used)
  }

  /** Reading a bit where it was written. */
  lemma BitBack(w: Writing, b: bool, r: Reading, out: Bytes)
    requires WriterOk(w) && Keeps(PutBit(w, b), out) && Stands(w, r, out)
    ensures TakeBit(r).Taken? && TakeBit(r).f == Bit(b) && Stands(PutBit(w, b), TakeBit(r).r, out)
  {
    var bit, d := if b then 1 else 0, PutBit(w, b);
    PutBitOk(w, b);
    if w.used + 1 == 8 {
      assert out[|w.buf|] == d.buf[|w.buf|];
      assert Pow2(8) == 256 by { PowBounds(8); }
    }
    var o: nat := out[|w.buf|];
    LowBits(w.low, bit, w.used, o);
    assert Pow2(0) == 1 && Pow2(1) == 2;
    if w.used == 0 {
      assert r.rest[0] == o && r.rest[1..] == out[|w.buf| + 1..];
    }
  }

  lemma ClosedStands(w: Writing, r: Reading, out: Bytes)
    requires Stands(w, r, out)
    ensures |Closed(w)| <= |out| && r.rest == out[|Closed(w)|..]
  {
  }

  lemma Behind(out: Bytes, a: Bytes, b: Bytes, t: Bytes)
    requires out == a + b + t
    ensures out[|a|..] == b + t && out[|a + b|..] == t
  {
  }

  lemma TakeWhole(r: Reading, k: Kind, f: Field, t: Bytes)
    requires !k.KBit? && ReadOctets(k, r.rest) == Ok(f, t)
    ensures Take(r, k) == Taken(f, Reading(t, r.bits, 0))
  {
  }

  /** Reading a whole field where it was written. */
  lemma FieldBack(w: Writing, f: Field, r: Reading, out: Bytes)
    requires !f.Bit? && Fits(f) && Put(w, f).buf <= out && Stands(w, r, out)
    ensures Take(r, KindOf(f)).Taken? && Take(r, KindOf(f)).f == f && Stands(Put(w, f), Take(r, KindOf(f)).r, out)
  {
    var d, t := Put(w, f), out[|Put(w, f).buf|..];
    ClosedStands(w, r, out);
    Behind(out, Closed(w), Octets(f), t);
    OctetsBack(f, t);
    TakeWhole(r, KindOf(f), f, t);
  }

  lemma {:induction false} KeepsAll(w: Writing, fs: seq<Field>)
    requires WriterOk(w)
    ensures Keeps(w, Closed(PutFields(w, fs)))
    decreases |fs|
  {
    if fs == [] {
      KeepsClosed(w);
    } else {
      PutOk(w, fs[0]);
      KeepsAll(Put(w, fs[0]), fs[1..]);
      if fs[0].Bit? {
        KeepsLonger(w, fs[0].b, Closed(PutFields(w, fs)));
      } else {
        KeepsFlushed(w, fs[0], Closed(PutFields(w, fs)));
      }
    }
  }

  lemma KeepsFlushed(w: Writing, f: Field, out: Bytes)
    requires WriterOk(w) && !f.Bit? && Keeps(Put(w, f), out)
    ensures Keeps(w, out)
  {
    KeepsClosed(w);
    var c := Closed(w);
    assert out[..|c|] == c;
    if w.used > 0 {
      assert out[|w.buf|] == c[|w.buf|];
    }
  }

  lemma KeepsMore(w: Writing, out: Bytes, t: Bytes)
    requires Keeps(w, out)
    ensures Keeps(w, out + t)
  {
  }

  lemma TakeStep(r: Reading, fs: seq<Field>)
    requires fs != [] && Take(r, KindOf(fs[0])).Taken? && Take(r, KindOf(fs[0])).f == fs[0]
    requires var rest := TakeFields(Take(r, KindOf(fs[0])).r, Kinds(fs[1..])); rest.AllTaken? && rest.fs == fs[1..]
    ensures TakeFields(r, Kinds(fs)) == AllTaken(fs, TakeFields(Take(r, KindOf(fs[0])).r, Kinds(fs[1..])).r)
  {
    assert Kinds(fs)[1..] == Kinds(fs[1..]) && [fs[0]] + fs[1..] == fs;
  }

  lemma {:induction false} BackFrom(w: Writing, fs: seq<Field>, r: Reading, t: Bytes)
    requires WriterOk(w) && Stands(w, r, Closed(PutFields(w, fs)) + t) && forall i :: 0 <= i < |fs| ==> Fits(fs[i])
    ensures TakeFields(r, Kinds(fs)).AllTaken? && TakeFields(r, Kinds(fs)).fs == fs
    ensures TakeFields(r, Kinds(fs)).r.rest == t
    decreases |fs|
  {
    var out := Closed(PutFields(w, fs)) + t;
    if fs == [] {
      ClosedStands(w, r, out);
    } else {
      var f, d := fs[0], Put(w, fs[0]);
      PutOk(w, f);
      KeepsAll(d, fs[1..]);
      KeepsMore(d, Closed(PutFields(d, fs[1..])), t);
      if f.Bit? {
        BitBack(w, f.b, r, out);
      } else {
        FieldBack(w, f, r, out);
      }
      BackFrom(d, fs[1..], Take(r, KindOf(f)).r, t);
      TakeStep(r, fs);
    }
  }

  /**
   * Any sequence of fields, written, closed and read back with the same list of kinds, comes back
   * as it was, over exactly the octets written.
   */
  lemma FieldsRoundTrip(fs: seq<Field>, t: Bytes)
    requires forall i :: 0 <= i < |fs| ==> Fits(fs[i])
    ensures var got := TakeFields(Reading(Written(fs) + t, 0, 0), Kinds(fs)); got.AllTaken? && got.fs == fs && got.r.rest == t
  {
    var out := Written(fs) + t;
    assert out[0..] == out;
    BackFrom(NEW_WRITER, fs, Reading(out, 0, 0), t);
  }

  /** Whatever was read fits its kind. */
  lemma {:induction false} BeRange(s: Bytes)
    ensures ReadBe(s) < Power256(|s|)
  {
    if s != [] {
      BeRange(s[..|s| - 1]);
    }
  }

  lemma TakenFits(r: Reading, k: Kind)
    requires Take(r, k).Taken?
    ensures Fits(Take(r, k).f)
  {
    Powers();
    match k
    case KBit =>
    case KNum(w) => BeRange(r.rest[..w]);
    case KShort => BeRange(r.rest[..1]);
    case KLong => BeRange(r.rest[..4]);
  }

  lemma {:induction false} AllTakenFit(r: Reading, ks: seq<Kind>)
    requires TakeFields(r, ks).AllTaken?
    ensures forall i :: 0 <= i < |TakeFields(r, ks).fs| ==> Fits(TakeFields(r, ks).fs[i])
    decreases |ks|
  {
    if ks != [] {
      TakenFits(r, ks[0]);
      AllTakenFit(Take(r, ks[0]).r, ks[1..]);
    }
  }

  /** Fields come back as they were, over exactly their octets and whatever follows, exactly when every one fits its kind. */
  lemma FieldsRoundTripIff(fs: seq<Field>, t: Bytes)
    ensures (var got := TakeFields(Reading(Written(fs) + t, 0, 0), Kinds(fs)); got.AllTaken? && got.fs == fs && got.r.rest == t)
        <==> forall i :: 0 <= i < |fs| ==> Fits(fs[i])
  {
    var got := TakeFields(Reading(Written(fs) + t, 0, 0), Kinds(fs));
    if forall i :: 0 <= i < |fs| ==> Fits(fs[i]) {
      FieldsRoundTrip(fs, t);
    } else if got.AllTaken? {
      AllTakenFit(Reading(Written(fs) + t, 0, 0), Kinds(fs));
    }
  }

  // --- the two objects ---------------------------------------------------

  /** Octets of a number, the lowest first found and put in front. */
  method ToBe(width: nat, v: nat) returns (s: Bytes)
    ensures s == PutBe(width, v)
  {
    s := [];
    var left, rest := width, v;
    while left > 0
      invariant PutBe(left, rest) + s == PutBe(width, v)
    {
      Regroup(PutBe(left - 1, rest / 256), [rest % 256], s);
      s := [rest % 256] + s;
      left, rest := left - 1, rest / 256;
    }
  }

  method FromBe(s: Bytes) returns (v: nat)
    ensures v == ReadBe(s)
  {
    v := 0;
    for i := 0 to |s|
      invariant v == ReadBe(s[..i])
    {
      assert s[..i + 1][..i] == s[..i];
      var low: int := s[i];
      v := 256 * v + low;
    }
    assert s[..|s|] == s;
  }

  class Writer {
    var buf: Bytes
    var bitByte: nat
    var bitUsed: nat

    ghost function State(): Writing
      reads this
    {
      Writing(buf, bitByte, bitUsed)
    }

    constructor ()
      ensures State() == NEW_WRITER && WriterOk(State())
    {
      buf, bitByte, bitUsed := [], 0, 0;
    }

    method FlushBits()
      modifies this
      ensures State() == Writing(Closed(old(State())), if old(bitUsed) > 0 then 0 else old(bitByte), 0)
    {
      if bitUsed > 0 {
        buf := buf + [bitByte % 256];
        bitByte, bitUsed := 0, 0;
      }
    }

    method PutFlag(b: bool)
      requires WriterOk(State())
      modifies this
      ensures WriterOk(State()) && State() == Put(old(State()), Bit(b))
    {
      PutBitOk(State(), b);
      bitByte := bitByte + (if b then Pow2(bitUsed) else 0);
      bitUsed := bitUsed + 1;
      if bitUsed == 8 {
        buf := buf + [bitByte % 256];
        bitByte, bitUsed := 0, 0;
      }
    }

    /** An integer: close the open octet, then write whole octets. */
    method PutNum(width: nat, v: nat)
      requires WriterOk(State())
      modifies this
      ensures WriterOk(State()) && State() == Put(old(State()), Num(width, v))
    {
      FlushBits();
      var octets := ToBe(width, v);
      buf := buf + octets;
    }

    method PutShort(s: Bytes)
      requires WriterOk(State())
      modifies this
      ensures WriterOk(State()) && State() == Put(old(State()), Short(s))
    {
      FlushBits();
      var length := ToBe(1, |s|);
      Regroup(buf, length, s);
      buf := buf + length;
      buf := buf + s;
    }

    method PutLong(s: Bytes)
      requires WriterOk(State())
      modifies this
      ensures WriterOk(State()) && State() == Put(old(State()), Long(s))
    {
      FlushBits();
      Regroup(buf, PutBe(4, |s|), s);
      PutNum(4, |s|);
      buf := buf + s;
    }

    method IntoBytes() returns (out: Bytes)
      modifies this
      ensures out == Closed(old(State())) && buf == []
    {
      FlushBits();
      out := buf;
      buf := [];
    }
  }

  class Reader {
    const data: Bytes
    var pos: nat
    var bitByte: nat
    var bitLeft: nat

    ghost predicate Valid()
      reads this
    {
      pos <= |data|
    }

    ghost function State(): Reading
      requires Valid()
      reads this
    {
      Reading(data[pos..], bitByte, bitLeft)
    }

    constructor (data: Bytes)
      ensures Valid() && State() == Reading(data, 0, 0)
    {
      this.data, pos, bitByte, bitLeft := data, 0, 0, 0;
    }

    method GetBit() returns (r: Option<bool>)
      requires Valid()
      modifies this
      ensures Valid() && State() == TakeBit(old(State())).r
      ensures r == match TakeBit(old(State())) case Taken(f, _) => Some(f.b) case Missing(_, _) => None
    {
      if bitLeft == 0 {
        if pos == |data| {
          return None;
        }
        assert data[pos..][1..] == data[pos + 1..];
        bitByte := data[pos];
        pos := pos + 1;
        bitLeft := 8;
      }
      r := Some(bitByte % 2 == 1);
      bitByte := bitByte / 2;
      bitLeft := bitLeft - 1;
    }

    /** The next `n` octets. */
    method GetBytes(n: nat) returns (r: Option<Bytes>)
      requires Valid()
      modifies this`pos
      ensures Valid()
      ensures |old(State()).rest| < n ==> r.None? && State() == old(State())
      ensures n <= |old(State()).rest| ==> r == Some(old(State()).rest[..n]) && State().rest == old(State()).rest[n..]
    {
      if |data| - pos < n {
        return None;
      }
      assert data[pos..][..n] == data[pos..pos + n] && data[pos..][n..] == data[pos + n..];
      r := Some(data[pos..pos + n]);
      pos := pos + n;
    }

    /** An integer: drop what is left of the last octet, then read whole octets. */
    method GetNum(width: nat) returns (r: Option<nat>)
      requires Valid()
      modifies this
      ensures Valid() && State() == Take(old(State()), KNum(width)).r
      ensures r == match Take(old(State()), KNum(width)) case Taken(f, _) => Some(f.v) case Missing(_, _) => None
    {
      bitLeft := 0;
      var octets := GetBytes(width);
      if octets.None? {
        assert old(State()).rest[0..] == old(State()).rest;
        return None;
      }
      var v := FromBe(octets.value);
      return Some(v);
    }

    method GetShort() returns (r: Option<Bytes>)
      requires Valid()
      modifies this
      ensures Valid() && State() == Take(old(State()), KShort).r
      ensures r == match Take(old(State()), KShort) case Taken(f, _) => Some(f.s) case Missing(_, _) => None
    {
      var length := GetNum(1);
      if length.None? {
        return None;
      }
      r := GetBytes(length.value);
    }

    method GetLong() returns (r: Option<Bytes>)
      requires Valid()
      modifies this
      ensures Valid() && State() == Take(old(State()), KLong).r
      ensures r == match Take(old(State()), KLong) case Taken(f, _) => Some(f.s) case Missing(_, _) => None
    {
      var length := GetNum(4);
      if length.None? {
        return None;
      }
      r := GetBytes(length.value);
    }
  }
}
