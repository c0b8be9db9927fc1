/** RESP values: simple and error strings, integers, bulk strings, arrays of values and the two nulls. */
module RespCodec {
  import opened Common
  import opened Parsing
  import Decimal
  import Utf8

  datatype Value =
    | Simple(text: Bytes)
    | Failure(text: Bytes)
    | Integer(n: int)
    | Bulk(data: Bytes)
    | NullBulk
    | Array(items: seq<Value>)
    | NullArray

  const CR: byte := 13
  const LF: byte := 10
  const CRLF: Bytes := [13, 10]
  const I64: int := 0x8000_0000_0000_0000

  // --- decimal integers --------------------------------------------------

  const MINUS: byte := 45

  function Show(n: int): Bytes { if n < 0 then [MINUS] + Decimal.Render(-n) else Decimal.Render(n) }

  /** An optional sign, at least one digit, and a value of 64 bits. */
  function ParseInt(s: Bytes): Option<int> {
    if s == [] then None
    else
      var signed := s[0] == MINUS || s[0] == 43;
      var digits := if signed then s[1..] else s;
      if digits == [] || !Decimal.AllDigits(digits) then None
      else
        var v: int := Decimal.Value(digits);
        var n := if s[0] == MINUS then -v else v;
        if -I64 <= n < I64 then Some(n) else None
  }

  /** A number of 64 bits. */
  function Ranged(n: int): Option<int> { if -I64 <= n < I64 then Some(n) else None }

  lemma ParseDigits(d: Bytes)
    requires d != [] && Decimal.AllDigits(d)
    ensures var v: int := Decimal.Value(d); ParseInt(d) == Ranged(v) && ParseInt([MINUS] + d) == Ranged(-v)
  {
    assert Decimal.IsDigit(d[0]);
    assert ([MINUS] + d)[1..] == d;
  }

  lemma ParseShow(n: int)
    ensures ParseInt(Show(n)) == Ranged(n)
  {
    var m := if n < 0 then -n else n;
    Decimal.ValueOfRender(m);
    ParseDigits(Decimal.Render(m));
  }

  // --- lines -------------------------------------------------------------

  predicate CrlfAt(s: Bytes, i: nat) { i + 1 < |s| && s[i] == CR && s[i + 1] == LF }

  function FindCrlf(s: Bytes, i: nat): (r: Option<nat>)
    ensures r.Some? ==> i <= r.value && r.value + 1 < |s|
    decreases |s| - i
  {
    if i + 1 >= |s| then None else if CrlfAt(s, i) then Some(i) else FindCrlf(s, i + 1)
  }

  predicate HasCrlf(s: Bytes) { exists i :: 0 <= i < |s| && CrlfAt(s, i) }

  lemma {:induction false} CrlfFirst(s: Bytes, i: nat, k: nat)
    requires i <= k && CrlfAt(s, k) && forall j :: i <= j < k ==> !CrlfAt(s, j)
    ensures FindCrlf(s, i) == Some(k)
    decreases k - i
  {
    if i < k {
      CrlfFirst(s, i + 1, k);
    }
  }

  /** The scan loop. */
  method ScanCrlf(s: Bytes, start: nat) returns (r: Option<nat>)
    ensures r == FindCrlf(s, start)
  {
    var i := start;
    while i + 1 < |s|
      invariant start <= i && FindCrlf(s, i) == FindCrlf(s, start)
    {
      if s[i] == CR && s[i + 1] == LF {
        return Some(i);
      }
      i := i + 1;
    }
    return None;
  }

  datatype Line = Cut(end: nat) | Wait | Refused

  /** A line with no end yet is waited for, but a lone marker is refused. */
  function ReadLine(s: Bytes, start: nat): (l: Line)
    ensures l.Cut? ==> start <= l.end && l.end + 1 < |s|
  {
    match FindCrlf(s, start)
    case Some(k) => Cut(k)
    case None => if start < |s| then Wait else Refused
  }

  // --- writing -----------------------------------------------------------

  function Encode(v: Value): Bytes
    decreases v
  {
    match v
    case Simple(s) => [43] + s + CRLF
    case Failure(s) => [45] + s + CRLF
    case Integer(n) => [58] + Show(n) + CRLF
    case Bulk(b) => [36] + Show(|b|) + CRLF + (b + CRLF)
    case NullBulk => [36] + Show(-1) + CRLF
    case Array(items) => [42] + Show(|items|) + CRLF + EncodeAll(items)
    case NullArray => [42] + Show(-1) + CRLF
  }

  function EncodeAll(vs: seq<Value>): Bytes
    decreases vs
  {
    if vs == [] then [] else Encode(vs[0]) + EncodeAll(vs[1..])
  }

  // --- reading -----------------------------------------------------------

  datatype Got<+T> = Got(value: T, used: nat) | Need | Bad(error: Error)

  function DecodeText(s: Bytes, end: nat): Got<Value>
    requires 1 <= end && end + 1 < |s|
  {
    if !Utf8.Valid(s[1..end]) then Bad(Malformed)
    else if s[0] == 43 then Got(Simple(s[1..end]), end + 2) else Got(Failure(s[1..end]), end + 2)
  }

  function DecodeBulk(s: Bytes, len: int, next: nat): Got<Value>
    requires next <= |s|
  {
    if len < 0 then Got(NullBulk, next)
    else if |s| < next + len + 2 then Need
    else if !CrlfAt(s, next + len) then Bad(Malformed)
    else Got(Bulk(s[next..next + len]), next + len + 2)
  }

  predicate IsMarker(b: byte) { b == 43 || b == 45 || b == 58 || b == 36 || b == 42 }

  function Whole(items: Got<seq<Value>>, header: nat): Got<Value> {
    match items
    case Need => Need
    case Bad(e) => Bad(e)
    case Got(vs, used) => Got(Array(vs), header + used)
  }

  function Decode(s: Bytes): (r: Got<Value>)
    ensures r.Got? ==> 0 < r.used <= |s|
    decreases |s|, 0
  {
    if s == [] then Need
    else if !IsMarker(s[0]) then Bad(Malformed)
    else
      match ReadLine(s, 1)
      case Wait => Need
      case Refused => Bad(Incomplete)
      case Cut(end) =>
        if s[0] == 43 || s[0] == 45 then DecodeText(s, end)
        else
          match ParseInt(s[1..end])
          case None => Bad(Malformed)
          case Some(n) =>
            if s[0] == 58 then Got(Integer(n), end + 2)
            else if s[0] == 36 then DecodeBulk(s, n, end + 2)
            else if n < 0 then Got(NullArray, end + 2)
            else Whole(DecodeItems(s[end + 2..], n), end + 2)
  }

  /** `count` values one after the other. */
  function DecodeItems(s: Bytes, count: nat): (r: Got<seq<Value>>)
    ensures r.Got? ==> r.used <= |s|
    decreases |s|, 1, count
  {
    if count == 0 then Got([], 0)
    else
      match Decode(s)
      case Need => Need
      case Bad(e) => Bad(e)
      case Got(v, n) =>
        match DecodeItems(s[n..], count - 1)
        case Need => Need
        case Bad(e) => Bad(e)
        case Got(vs, m) => Got([v] + vs, n + m)
  }

  // --- round trip --------------------------------------------------------

  /** Text without a line end inside, integers and lengths of 64 bits. */
  predicate Plain(v: Value)
    decreases v
  {
    match v
    case Simple(s) => Utf8.Valid(s) && !HasCrlf(s)
    case Failure(s) => Utf8.Valid(s) && !HasCrlf(s)
    case Integer(n) => -I64 <= n < I64
    case Bulk(b) => |b| < I64
    case NullBulk => true
    case Array(items) => |items| < I64 && forall i :: 0 <= i < |items| ==> Plain(items[i])
    case NullArray => true
  }

  lemma ShowHasNoCrlf(n: int)
    ensures !HasCrlf(Show(n))
  {
  }

  /** A marker, a text and a line end: where the line is cut and what it holds. */
  lemma LineBack(marker: byte, text: Bytes, t: Bytes)
    requires !HasCrlf(text)
    ensures var s := [marker] + text + CRLF + t;
      && s[0] == marker && ReadLine(s, 1) == Cut(1 + |text|) && s[1..1 + |text|] == text && s[|text| + 3..] == t
  {
    var s, k := [marker] + text + CRLF + t, 1 + |text|;
    forall j | 1 <= j < k ensures !CrlfAt(s, j) {
      assert s[j] == text[j - 1];
      if j < |text| {
        assert s[j + 1] == text[j] && !CrlfAt(text, j - 1);
      }
    }
    assert s[k] == CR && s[k + 1] == LF;
    CrlfFirst(s, 1, k);
  }

  lemma TextStep(s: Bytes, end: nat)
    requires s != [] && (s[0] == 43 || s[0] == 45) && ReadLine(s, 1) == Cut(end)
    ensures Decode(s) == DecodeText(s, end)
  {
  }

  lemma IntegerStep(s: Bytes, end: nat, n: int)
    requires s != [] && s[0] == 58 && ReadLine(s, 1) == Cut(end) && ParseInt(s[1..end]) == Some(n)
    ensures Decode(s) == Got(Integer(n), end + 2)
  {
  }

  lemma BulkStep(s: Bytes, end: nat, n: int)
    requires s != [] && s[0] == 36 && ReadLine(s, 1) == Cut(end) && ParseInt(s[1..end]) == Some(n)
    ensures Decode(s) == DecodeBulk(s, n, end + 2)
  {
  }

  lemma ArrayStep(s: Bytes, end: nat, n: int)
    requires s != [] && s[0] == 42 && ReadLine(s, 1) == Cut(end) && ParseInt(s[1..end]) == Some(n)
    ensures n < 0 ==> Decode(s) == Got(NullArray, end + 2)
    ensures n >= 0 ==> Decode(s) == Whole(DecodeItems(s[end + 2..], n), end + 2)
  {
  }

  lemma TextBack(marker: byte, text: Bytes, t: Bytes)
    requires (marker == 43 || marker == 45) && Utf8.Valid(text) && !HasCrlf(text)
    ensures Decode([marker] + text + CRLF + t) == Got(if marker == 43 then Simple(text) else Failure(text), |text| + 3)
  {
    LineBack(marker, text, t);
    TextStep([marker] + text + CRLF + t, 1 + |text|);
  }

  lemma NumberLine(marker: byte, n: int, t: Bytes)
    requires -I64 <= n < I64
    ensures var s, end := [marker] + Show(n) + CRLF + t, 1 + |Show(n)|;
      && s[0] == marker && ReadLine(s, 1) == Cut(end) && ParseInt(s[1..end]) == Some(n) && s[end + 2..] == t
  {
    ShowHasNoCrlf(n);
    LineBack(marker, Show(n), t);
    ParseShow(n);
  }

  lemma BulkBack(b: Bytes, t: Bytes)
    requires |b| < I64
    ensures Decode([36] + Show(|b|) + CRLF + (b + CRLF + t)) == Got(Bulk(b), |Show(|b|)| + |b| + 5)
  {
    var s, end := [36] + Show(|b|) + CRLF + (b + CRLF + t), 1 + |Show(|b|)|;
    NumberLine(36, |b|, b + CRLF + t);
    BulkStep(s, end, |b|);
    BulkData(s, end + 2, b, t);
  }

  lemma BulkData(s: Bytes, next: nat, b: Bytes, t: Bytes)
    requires next <= |s| && s[next..] == b + CRLF + t
    ensures DecodeBulk(s, |b|, next) == Got(Bulk(b), next + |b| + 2)
  {
    var rest := s[next..];
    assert s[next..next + |b|] == rest[..|b|] == b;
    assert s[next + |b|] == rest[|b|] == CR && s[next + |b| + 1] == rest[|b| + 1] == LF;
  }

  /** A value is read back over exactly its own octets, at any depth, whatever follows. */
  lemma {:induction false} RoundTrip(v: Value, t: Bytes)
    requires Plain(v)
    ensures Decode(Encode(v) + t) == Got(v, |Encode(v)|)
    decreases v
  {
    match v
    case Simple(s) => TextBack(43, s, t);
    case Failure(s) => TextBack(45, s, t);
    case Integer(n) =>
      NumberLine(58, n, t);
      IntegerStep(Encode(v) + t, 1 + |Show(n)|, n);
    case Bulk(b) =>
      BulkBack(b, t);
      Regroup([36] + Show(|b|) + CRLF, b + CRLF, t);
    case NullBulk =>
      NumberLine(36, -1, t);
      BulkStep(Encode(v) + t, 1 + |Show(-1)|, -1);
    case Array(items) =>
      ItemsBack(items, t);
      ArrayBack(items, t);
    case NullArray =>
      NumberLine(42, -1, t);
      ArrayStep(Encode(v) + t, 1 + |Show(-1)|, -1);
  }

  lemma {:induction false} ItemsBack(vs: seq<Value>, t: Bytes)
    requires forall i :: 0 <= i < |vs| ==> Plain(vs[i])
    ensures DecodeItems(EncodeAll(vs) + t, |vs|) == Got(vs, |EncodeAll(vs)|)
    decreases vs
  {
    if vs != [] {
      var more := EncodeAll(vs[1..]) + t;
      RoundTrip(vs[0], more);
      ItemsBack(vs[1..], t);
      ItemsStep(vs, t);
    }
  }

  lemma EncodeStep(vs: seq<Value>)
    requires vs != []
    ensures EncodeAll(vs) == Encode(vs[0]) + EncodeAll(vs[1..]) && [vs[0]] + vs[1..] == vs
  {
  }

  lemma ItemsStep(vs: seq<Value>, t: Bytes)
    requires vs != []
    requires Decode(Encode(vs[0]) + (EncodeAll(vs[1..]) + t)) == Got(vs[0], |Encode(vs[0])|)
    requires DecodeItems(EncodeAll(vs[1..]) + t, |vs[1..]|) == Got(vs[1..], |EncodeAll(vs[1..])|)
    ensures DecodeItems(EncodeAll(vs) + t, |vs|) == Got(vs, |EncodeAll(vs)|)
  {
    EncodeStep(vs);
    ItemsAt(Encode(vs[0]), EncodeAll(vs[1..]), t, vs[0], vs[1..]);
  }

  lemma ItemsAt(a: Bytes, rest: Bytes, t: Bytes, v: Value, vs: seq<Value>)
    requires Decode(a + (rest + t)) == Got(v, |a|) && DecodeItems(rest + t, |vs|) == Got(vs, |rest|)
    ensures DecodeItems(a + rest + t, |vs| + 1) == Got([v] + vs, |a + rest|)
  {
    Regroup(a, rest, t);
    ItemsJoin(a, rest + t, v, vs, |rest|);
  }

  lemma ItemsJoin(a: Bytes, more: Bytes, v: Value, vs: seq<Value>, m: nat)
    requires Decode(a + more) == Got(v, |a|) && DecodeItems(more, |vs|) == Got(vs, m)
    ensures DecodeItems(a + more, |vs| + 1) == Got([v] + vs, |a| + m)
  {
    assert (a + more)[|a|..] == more;
  }

  lemma ArrayBack(items: seq<Value>, t: Bytes)
    requires |items| < I64 && DecodeItems(EncodeAll(items) + t, |items|) == Got(items, |EncodeAll(items)|)
    ensures Decode(Encode(Array(items)) + t) == Got(Array(items), |Encode(Array(items))|)
  {
    var n, body := |items|, EncodeAll(items);
    NumberLine(42, n, body + t);
    Regroup([42] + Show(n) + CRLF, body, t);
    ArrayStep([42] + Show(n) + CRLF + (body + t), 1 + |Show(n)|, n);
  }

  lemma {:induction false} EarlierCut(s: Bytes, i: nat, k: nat)
    requires i <= k && CrlfAt(s, k)
    ensures FindCrlf(s, i).Some? && FindCrlf(s, i).value <= k
    decreases k - i
  {
    if i < k && !CrlfAt(s, i) {
      EarlierCut(s, i + 1, k);
    }
  }

  // --- what does not come back -------------------------------------------

  /** `r` is a reading of `v`, over however many octets. */
  predicate Yields<T(==)>(r: Got<T>, v: T) { r.Got? && r.value == v }

  lemma RefusedStep(s: Bytes, end: nat)
    requires s != [] && ReadLine(s, 1) == Cut(end) && (s[0] == 58 || s[0] == 36 || s[0] == 42) && ParseInt(s[1..end]) == None
    ensures Decode(s) == Bad(Malformed)
  {
  }

  lemma NumberLost(marker: byte, n: int, t: Bytes)
    requires (marker == 58 || marker == 36 || marker == 42) && !(-I64 <= n < I64)
    ensures Decode([marker] + Show(n) + CRLF + t) == Bad(Malformed)
  {
    ShowHasNoCrlf(n);
    LineBack(marker, Show(n), t);
    ParseShow(n);
    RefusedStep([marker] + Show(n) + CRLF + t, 1 + |Show(n)|);
  }

  lemma TextLost(marker: byte, text: Bytes, t: Bytes)
    requires (marker == 43 || marker == 45) && !(Utf8.Valid(text) && !HasCrlf(text))
    ensures !Yields(Decode([marker] + text + CRLF + t), if marker == 43 then Simple(text) else Failure(text))
  {
    var s := [marker] + text + CRLF + t;
    if HasCrlf(text) {
      var i :| 0 <= i < |text| && CrlfAt(text, i);
      assert s[i + 1] == text[i] && s[i + 2] == text[i + 1];
      EarlierCut(s, 1, i + 1);
      TextStep(s, FindCrlf(s, 1).value);
    } else {
      LineBack(marker, text, t);
      TextStep(s, 1 + |text|);
    }
  }

  lemma HeadLost(s: Bytes, v: Value, vs: seq<Value>)
    requires !Yields(Decode(s), v)
    ensures !Yields(DecodeItems(s, |vs| + 1), [v] + vs)
  {
    var d, r := Decode(s), DecodeItems(s, |vs| + 1);
    if d.Got? && r.Got? {
      assert r.value[0] == d.value;
    }
  }

  lemma TailLost(a: Bytes, more: Bytes, v: Value, vs: seq<Value>)
    requires Decode(a + more) == Got(v, |a|) && !Yields(DecodeItems(more, |vs|), vs)
    ensures !Yields(DecodeItems(a + more, |vs| + 1), [v] + vs)
  {
    assert (a + more)[|a|..] == more;
    var r := DecodeItems(a + more, |vs| + 1);
    if r.Got? {
      assert r.value[1..] == DecodeItems(more, |vs|).value;
      assert ([v] + vs)[1..] == vs;
    }
  }

  lemma ArrayLost(items: seq<Value>, t: Bytes)
    requires |items| < I64 && !Yields(DecodeItems(EncodeAll(items) + t, |items|), items)
    ensures !Yields(Decode(Encode(Array(items)) + t), Array(items))
  {
    var n, body := |items|, EncodeAll(items);
    NumberLine(42, n, body + t);
    Regroup([42] + Show(n) + CRLF, body, t);
    ArrayStep([42] + Show(n) + CRLF + (body + t), 1 + |Show(n)|, n);
  }

  /** A value that is not plain is not read back, at any depth. */
  lemma {:induction false} Lost(v: Value, t: Bytes)
    requires !Plain(v)
    ensures !Yields(Decode(Encode(v) + t), v)
    decreases v
  {
    match v
    case Simple(s) => TextLost(43, s, t);
    case Failure(s) => TextLost(45, s, t);
    case Integer(n) => NumberLost(58, n, t);
    case Bulk(b) =>
      Regroup([36] + Show(|b|) + CRLF, b + CRLF, t);
      NumberLost(36, |b|, b + CRLF + t);
    case Array(items) =>
      if |items| < I64 {
        ItemsLost(items, t);
        ArrayLost(items, t);
      } else {
        Regroup([42] + Show(|items|) + CRLF, EncodeAll(items), t);
        NumberLost(42, |items|, EncodeAll(items) + t);
      }
  }

  lemma {:induction false} ItemsLost(vs: seq<Value>, t: Bytes)
    requires exists i :: 0 <= i < |vs| && !Plain(vs[i])
    ensures !Yields(DecodeItems(EncodeAll(vs) + t, |vs|), vs)
    decreases vs
  {
    EncodeStep(vs);
    Regroup(Encode(vs[0]), EncodeAll(vs[1..]), t);
    if Plain(vs[0]) {
      RoundTrip(vs[0], EncodeAll(vs[1..]) + t);
      assert exists i :: 0 <= i < |vs[1..]| && !Plain(vs[1..][i]) by {
        var i :| 0 <= i < |vs| && !Plain(vs[i]);
        assert vs[1..][i - 1] == vs[i];
      }
      ItemsLost(vs[1..], t);
      TailLost(Encode(vs[0]), EncodeAll(vs[1..]) + t, vs[0], vs[1..]);
    } else {
      Lost(vs[0], EncodeAll(vs[1..]) + t);
      HeadLost(Encode(vs[0]) + (EncodeAll(vs[1..]) + t), vs[0], vs[1..]);
    }
  }

  /** Exactly the plain values come back, over exactly their own octets and whatever follows. */
  lemma RoundTripIff(v: Value, t: Bytes)
    ensures Decode(Encode(v) + t) == Got(v, |Encode(v)|) <==> Plain(v)
  {
    if Plain(v) {
      RoundTrip(v, t);
    } else {
      Lost(v, t);
    }
  }

  // --- the recursive reader and writer -----------------------------------

  /** What has been read of an array so far, and what is left of it. */
  ghost predicate Resumes(all: Got<seq<Value>>, items: seq<Value>, used: nat, left: Got<seq<Value>>) {
    match left
    case Got(vs, m) => all == Got(items + vs, used + m)
    case Need => all == Need
    case Bad(e) => all == Bad(e)
  }

  lemma ResumesStart(all: Got<seq<Value>>)
    ensures Resumes(all, [], 0, all)
  {
    if all.Got? {
      assert [] + all.value == all.value;
    }
  }

  lemma ResumesNext(all: Got<seq<Value>>, items: seq<Value>, used: nat, s: Bytes, count: nat)
    requires count > 0 && Decode(s).Got? && Resumes(all, items, used, DecodeItems(s, count))
    ensures var d := Decode(s); Resumes(all, items + [d.value], used + d.used, DecodeItems(s[d.used..], count - 1))
  {
    var d := Decode(s);
    var left := DecodeItems(s[d.used..], count - 1);
    if left.Got? {
      assert items + ([d.value] + left.value) == items + [d.value] + left.value;
    }
  }

  lemma ResumesEnd(all: Got<seq<Value>>, items: seq<Value>, used: nat, s: Bytes)
    requires Resumes(all, items, used, DecodeItems(s, 0))
    ensures all == Got(items, used)
  {
    assert items + [] == items;
  }

  method DecodeValue(s: Bytes) returns (r: Got<Value>)
    ensures r == Decode(s)
    decreases |s|, 1
  {
    if s == [] {
      return Need;
    }
    if !IsMarker(s[0]) {
      return Bad(Malformed);
    }
    var crlf := ScanCrlf(s, 1);
    if crlf.None? {
      return if 1 < |s| then Need else Bad(Incomplete);
    }
    r := DecodeLine(s, crlf.value);
  }

  /** The rest of a value whose first line ends at `end`. */
  method DecodeLine(s: Bytes, end: nat) returns (r: Got<Value>)
    requires s != [] && IsMarker(s[0]) && ReadLine(s, 1) == Cut(end)
    ensures r == Decode(s)
    decreases |s|, 0
  {
    if s[0] == 43 || s[0] == 45 {
      TextStep(s, end);
      return DecodeText(s, end);
    }
    var n := ParseInt(s[1..end]);
    if n.None? {
      return Bad(Malformed);
    }
    if s[0] == 58 {
      IntegerStep(s, end, n.value);
      return Got(Integer(n.value), end + 2);
    }
    if s[0] == 36 {
      BulkStep(s, end, n.value);
      return DecodeBulk(s, n.value, end + 2);
    }
    ArrayStep(s, end, n.value);
    if n.value < 0 {
      return Got(NullArray, end + 2);
    }
    var items := DecodeArray(s[end + 2..], n.value);
    return Whole(items, end + 2);
  }

  lemma ItemsStop(s: Bytes, count: nat)
    requires count > 0 && !Decode(s).Got?
    ensures DecodeItems(s, count) == match Decode(s) case Need => Need case Bad(e) => Bad(e)
  {
  }

  /** The position loop over the elements of an array. */
  method DecodeArray(s: Bytes, count: nat) returns (r: Got<seq<Value>>)
    ensures r == DecodeItems(s, count)
    decreases |s|, 2
  {
    var items, rest, todo := [], s, count;
    ghost var all := DecodeItems(s, count);
    ghost var left := all;
    ResumesStart(all);
    while todo > 0
      invariant |rest| <= |s| && left == DecodeItems(rest, todo) && Resumes(all, items, |s| - |rest|, left)
    {
      var d := DecodeValue(rest);
      match d {
        case Need =>
          ItemsStop(rest, todo);
          return Need;
        case Bad(e) =>
          ItemsStop(rest, todo);
          return Bad(e);
        case Got(v, n) =>
          ResumesNext(all, items, |s| - |rest|, rest, todo);
          items, rest, todo := items + [v], rest[n..], todo - 1;
          left := DecodeItems(rest, todo);
      }
    }
    ResumesEnd(all, items, |s| - |rest|, rest);
    return Got(items, |s| - |rest|);
  }
}
