/** The framing of an offloaded segment: each payload behind its length, four octets, little end first. */
module SegmentCodec {
  import opened Common

  type Payload = seq<byte>
  datatype Record = Record(offset: nat, payload: Payload, timestamp: nat)

  const LIMIT: nat := 0x1_0000_0000

  /** `n as u32` in little-endian order; lengths of 2^32 and more wrap. */
  function Le32(n: nat): (s: seq<byte>)
    ensures |s| == 4
  {
    [n % 256, n / 256 % 256, n / 65536 % 256, n / 16777216 % 256]
  }

  function FromLe32(s: seq<byte>): nat
    requires |s| == 4
  {
    var b0: int := s[0];
    var b1: int := s[1];
    var b2: int := s[2];
    var b3: int := s[3];
    b0 + 256 * b1 + 65536 * b2 + 16777216 * b3
  }

  lemma Shifted(n: nat)
    ensures n / 65536 == n / 256 / 256 && n / 16777216 == n / 65536 / 256
  {
  }

  lemma Le32RoundTrip(n: nat)
    requires n < LIMIT
    ensures FromLe32(Le32(n)) == n
  {
    Shifted(n);
    var a, b, c := n / 256, n / 65536, n / 16777216;
    assert n == 256 * a + n % 256 && a == 256 * b + a % 256 && b == 256 * c + b % 256 && c < 256;
  }

  function Encode(ps: seq<Payload>): seq<byte> {
    if ps == [] then [] else Le32(|ps[0]|) + ps[0] + Encode(ps[1..])
  }

  /** Payloads up to the first frame that is cut short. */
  function Decode(buf: seq<byte>): seq<Payload>
    decreases |buf|
  {
    if |buf| < 4 then []
    else
      var len := FromLe32(buf[..4]);
      if 4 + len > |buf| then [] else [buf[4..4 + len]] + Decode(buf[4 + len..])
  }

  predicate Framable(ps: seq<Payload>) { forall i :: 0 <= i < |ps| ==> |ps[i]| < LIMIT }

  lemma {:induction false} DecodeEncode(ps: seq<Payload>)
    requires Framable(ps)
    ensures Decode(Encode(ps)) == ps
    decreases |ps|
  {
    if ps != [] {
      var p, rest := ps[0], Encode(ps[1..]);
      var buf := Encode(ps);
      assert buf == Le32(|p|) + (p + rest);
      assert buf[..4] == Le32(|p|);
      Le32RoundTrip(|p|);
      assert buf[4..4 + |p|] == p && buf[4 + |p|..] == rest;
      DecodeEncode(ps[1..]);
    }
  }

  lemma {:induction false} EncodeSnoc(ps: seq<Payload>, p: Payload)
    ensures Encode(ps + [p]) == Encode(ps) + (Le32(|p|) + p)
    decreases |ps|
  {
    if ps == [] {
      assert [] + [p] == [p] && [p][1..] == [];
    } else {
      assert (ps + [p])[1..] == ps[1..] + [p];
      EncodeSnoc(ps[1..], p);
    }
  }

  method EncodeSegment(ps: seq<Payload>) returns (buf: seq<byte>)
    ensures buf == Encode(ps)
  {
    buf := [];
    for i := 0 to |ps|
      invariant buf == Encode(ps[..i])
    {
      EncodeSnoc(ps[..i], ps[i]);
      assert ps[..i + 1] == ps[..i] + [ps[i]];
      buf := buf + Le32(|ps[i]|);
      buf := buf + ps[i];
    }
    assert ps[..|ps|] == ps;
  }

  function Payloads(rs: seq<Record>): (ps: seq<Payload>)
    ensures |ps| == |rs|
  {
    seq(|rs|, i requires 0 <= i < |rs| => rs[i].payload)
  }

  lemma DecodeAt(buf: seq<byte>, cursor: nat)
    requires cursor + 4 <= |buf|
    ensures var start, len := cursor + 4, FromLe32(buf[cursor..cursor + 4]);
      Decode(buf[cursor..]) ==
        if start + len > |buf| then [] else [buf[start..start + len]] + Decode(buf[start + len..])
  {
    var rest := buf[cursor..];
    assert rest[..4] == buf[cursor..cursor + 4];
    var start, len := cursor + 4, FromLe32(rest[..4]);
    if start + len <= |buf| {
      assert rest[4..4 + len] == buf[start..start + len] && rest[4 + len..] == buf[start + len..];
    }
  }

  lemma PayloadsSnoc(rs: seq<Record>, r: Record)
    ensures Payloads(rs + [r]) == Payloads(rs) + [r.payload]
  {
  }

  /** The records so far and the frames from `cursor` on are all of the buffer's. */
  ghost predicate ReadTo(buf: seq<byte>, out: seq<Record>, cursor: nat)
    requires cursor <= |buf|
  {
    Payloads(out) + Decode(buf[cursor..]) == Decode(buf)
  }

  lemma ReadStart(buf: seq<byte>)
    ensures ReadTo(buf, [], 0)
  {
    assert buf[0..] == buf;
    assert Payloads([]) == [];
  }

  lemma ReadMore(buf: seq<byte>, out: seq<Record>, cursor: nat, p: Payload, next: nat)
    requires cursor <= |buf| && next <= |buf| && ReadTo(buf, out, cursor)
    requires Decode(buf[cursor..]) == [p] + Decode(buf[next..])
    ensures ReadTo(buf, out + [Record(|out|, p, 0)], next)
  {
    PayloadsSnoc(out, Record(|out|, p, 0));
    Regroup(Payloads(out), [p], Decode(buf[next..]));
  }

  lemma ReadEnd(buf: seq<byte>, out: seq<Record>, cursor: nat)
    requires cursor <= |buf| && ReadTo(buf, out, cursor) && Decode(buf[cursor..]) == []
    ensures Payloads(out) == Decode(buf)
  {
    assert Payloads(out) + [] == Payloads(out);
  }

  /** One turn of the decode loop: the frame at `cursor`, if it is whole. */
  method NextFrame(buf: seq<byte>, cursor: nat) returns (payload: Option<Payload>, next: nat)
    requires cursor + 4 <= |buf|
    ensures payload.None? ==> Decode(buf[cursor..]) == []
    ensures payload.Some? ==> cursor < next <= |buf| && Decode(buf[cursor..]) == [payload.value] + Decode(buf[next..])
  {
    DecodeAt(buf, cursor);
    var len := FromLe32(buf[cursor..cursor + 4]);
    next := cursor + 4;
    if next + len > |buf| {
      payload := None;
    } else {
      payload := Some(buf[next..next + len]);
      next := next + len;
    }
  }

  method DecodeSegment(buf: seq<byte>) returns (out: seq<Record>)
    ensures Payloads(out) == Decode(buf)
  {
    out := [];
    var cursor := 0;
    ReadStart(buf);
    while cursor + 4 <= |buf|
      invariant 0 <= cursor <= |buf| && ReadTo(buf, out, cursor)
      decreases |buf| - cursor
    {
      var payload, next := NextFrame(buf, cursor);
      if payload.None? {
        ReadEnd(buf, out, cursor);
        return;
      }
      ReadMore(buf, out, cursor, payload.value, next);
      out := out + [Record(|out|, payload.value, 0)];
      cursor := next;
    }
    assert Decode(buf[cursor..]) == [];
    ReadEnd(buf, out, cursor);
  }
}
