/** The mutable two-tier log. Its `flat` is the sequence of payloads ever appended. */
module TieredStore {
  import opened Common
  import opened SegmentCodec
  import opened TieredLog

  predicate FirstSealed(segments: seq<Segment>, id: nat, at: nat) {
    && at < |segments| && segments[at].id == id && segments[at].isSealed
    && forall k :: 0 <= k < at ==> !(segments[k].id == id && segments[k].isSealed)
  }

  class SegmentedLog {
    var segments: seq<Segment>
    var nextOffset: nat
    var nextSegmentId: nat
    const maxSegmentBytes: nat

    function Value(): Local
      reads this
    {
      Local(segments, nextOffset, nextSegmentId)
    }

    constructor (maxSegmentBytes: nat)
      ensures Value() == NewLocal && this.maxSegmentBytes == maxSegmentBytes
    {
      this.maxSegmentBytes := maxSegmentBytes;
      segments, nextOffset, nextSegmentId := [Segment(0, 0, [], 0, false)], 0, 1;
    }

    /** `None` is the "empty payload" error. */
    method Append(payload: Payload, now: nat) returns (offset: Option<nat>)
      requires segments != []
      modifies this
      ensures payload == [] ==> offset.None? && Value() == old(Value())
      ensures payload != [] ==> offset == Some(old(nextOffset)) && Value() == Appended(old(Value()), payload, now, maxSegmentBytes)
    {
      if payload == [] {
        return None;
      }
      offset := Some(nextOffset);
      nextOffset := nextOffset + 1;
      var rec := Record(offset.value, payload, now);
      var k := |segments| - 1;
      if segments[k].bytes + |payload| > maxSegmentBytes && segments[k].records != [] {
        segments := segments[k := segments[k].(isSealed := true)];
        var id := nextSegmentId % LIMIT;
        nextSegmentId := nextSegmentId + 1;
        segments := segments + [Segment(id, offset.value, [], 0, false)];
      }
      k := |segments| - 1;
      segments := segments[k := Grown(segments[k], rec)];
    }

    /** Sealed segments in append order. */
    method SealedSegments() returns (out: seq<Segment>)
      ensures forall i :: 0 <= i < |out| ==> out[i] in segments && out[i].isSealed
      ensures forall s :: s in segments && s.isSealed ==> s in out
      ensures (forall j, k :: 0 <= j < k < |segments| ==> segments[j].id != segments[k].id) ==>
        forall j, k :: 0 <= j < k < |out| ==> out[j].id != out[k].id
    {
      out := [];
      for i := 0 to |segments|
        invariant forall j :: 0 <= j < |out| ==> out[j] in segments[..i] && out[j].isSealed
        invariant forall s :: s in segments[..i] && s.isSealed ==> s in out
        invariant (forall j, k :: 0 <= j < k < |segments| ==> segments[j].id != segments[k].id) ==>
          forall j, k :: 0 <= j < k < |out| ==> out[j].id != out[k].id
      {
        if segments[i].isSealed {
          out := out + [segments[i]];
        }
      }
    }

    /** Drop the first sealed segment numbered `id`, if there is one. */
    method DropSegment(id: nat)
      modifies this`segments
      ensures forall at :: FirstSealed(old(segments), id, at) ==> segments == Without(old(segments), at)
      ensures (forall at :: !FirstSealed(old(segments), id, at)) ==> segments == old(segments)
    {
      for pos := 0 to |segments|
        invariant segments == old(segments)
        invariant forall k :: 0 <= k < pos ==> !(segments[k].id == id && segments[k].isSealed)
      {
        if segments[pos].id == id && segments[pos].isSealed {
          assert FirstSealed(segments, id, pos);
          segments := segments[..pos] + segments[pos + 1..];
          return;
        }
      }
    }

    method ReadSegmentRecords(base: nat) returns (r: Option<seq<Record>>)
      ensures r.Some? ==> exists s :: s in segments && s.base == base && r == Some(s.records)
      ensures r.None? ==> base !in LocalBases(segments)
    {
      for i := 0 to |segments|
        invariant forall k :: 0 <= k < i ==> segments[k].base != base
      {
        if segments[i].base == base {
          return Some(segments[i].records);
        }
      }
      return None;
    }
  }

  /** An object store whose `put` may fail, having stored the object or not. */
  class ObjectStore {
    var objects: map<seq<byte>, seq<byte>>

    constructor ()
      ensures objects == map[]
    {
      objects := map[];
    }

    method Put(key: seq<byte>, data: seq<byte>) returns (ok: bool)
      modifies this
      ensures ok ==> objects == old(objects)[key := data]
      ensures !ok ==> objects == old(objects) || objects == old(objects)[key := data]
    {
      if * {
        objects := objects[key := data];
        ok := true;
      } else if * {
        objects := objects[key := data];
        ok := false;
      } else {
        ok := false;
      }
    }
  }

  /** Insertion into a sorted list, dropping a repeated value. */
  method SortDedup(all: seq<nat>) returns (sorted: seq<nat>)
    ensures Ascending(sorted) && Elements(sorted) == Elements(all)
  {
    sorted := [];
    for i := 0 to |all|
      invariant Ascending(sorted) && Elements(sorted) == Elements(all[..i])
    {
      sorted := Insert(sorted, all[i]);
      ElementsSnoc(all[..i], all[i]);
      assert all[..i + 1] == all[..i] + [all[i]];
    }
    assert all[..|all|] == all;
  }

  method Insert(s: seq<nat>, x: nat) returns (r: seq<nat>)
    requires Ascending(s)
    ensures Ascending(r) && Elements(r) == Elements(s) + {x}
  {
    var k := 0;
    while k < |s| && s[k] < x
      invariant 0 <= k <= |s|
      invariant forall i :: 0 <= i < k ==> s[i] < x
    {
      k := k + 1;
    }
    if k < |s| && s[k] == x {
      r := s;
    } else {
      r := s[..k] + [x] + s[k..];
      SplicedElements(s, k, x);
    }
  }

  lemma SplicedElements(s: seq<nat>, k: nat, x: nat)
    requires k <= |s|
    ensures Elements(s[..k] + [x] + s[k..]) == Elements(s) + {x}
  {
    ElementsSnoc(s[..k], x);
    ElementsConcat(s[..k] + [x], s[k..]);
    ElementsConcat(s[..k], s[k..]);
    assert s == s[..k] + s[k..];
  }

  method ToSeq(s: set<nat>) returns (all: seq<nat>)
    ensures Elements(all) == s
  {
    all := [];
    var rest := s;
    while rest != {}
      invariant rest <= s && Elements(all) == s - rest
    {
      var b :| b in rest;
      ElementsSnoc(all, b);
      all := all + [b];
      rest := rest - {b};
    }
  }

  /** Bases of both tiers, in offset order, each once. */
  method AllBases(offloaded: set<nat>, segments: seq<Segment>) returns (bases: seq<nat>)
    ensures Ascending(bases) && Elements(bases) == offloaded + LocalBases(segments)
  {
    var all := ToSeq(offloaded);
    for j := 0 to |segments|
      invariant Elements(all) == offloaded + LocalBases(segments[..j])
    {
      var b := segments[j].base;
      ElementsSnoc(all, b);
      assert LocalBases(segments[..j + 1]) == LocalBases(segments[..j]) + {b} by {
        assert segments[..j + 1][j].base == b;
        assert forall i :: 0 <= i < j ==> segments[..j + 1][i] == segments[..j][i];
      }
      all := all + [b];
    }
    assert segments[..|segments|] == segments;
    bases := SortDedup(all);
  }

  method Renumber(fetched: seq<Record>, base: nat) returns (recs: seq<Record>)
    ensures |recs| == |fetched|
    ensures forall k :: 0 <= k < |recs| ==> recs[k].payload == fetched[k].payload && recs[k].offset == base + k
  {
    recs := fetched;
    for i := 0 to |recs|
      invariant |recs| == |fetched|
      invariant forall k :: 0 <= k < |recs| ==> recs[k].payload == fetched[k].payload
      invariant forall k :: 0 <= k < i ==> recs[k].offset == base + k
    {
      recs := recs[i := recs[i].(offset := base + i)];
    }
  }

  /** Add the records of one segment that fall into the window, until `max` are held. */
  method Extend(soFar: seq<Record>, recs: seq<Record>, base: nat, from: nat, max: nat, ghost n: Numbered) returns (out: seq<Record>)
    requires |soFar| < max && base + |recs| <= |n| && Seen(recs) == n[base..base + |recs|]
    requires Seen(soFar) == Clip(n, base, from, max)
    ensures Seen(out) == Clip(n, base + |recs|, from, max)
  {
    if base + |recs| <= from {
      ClipExtends(n, base, base + |recs|, from, max);
      return soFar;
    }
    var start := if from > base then from - base else 0;
    out := Take(soFar, recs, start, max);
    TakenIsClip(soFar, recs, base, start, from, max, n);
  }

  lemma TakenIsClip(soFar: seq<Record>, recs: seq<Record>, base: nat, start: nat, from: nat, max: nat, n: Numbered)
    requires |soFar| < max && start <= |recs| && base + start == (if from > base then from else base)
    requires base + |recs| <= |n| && Seen(recs) == n[base..base + |recs|] && Seen(soFar) == Clip(n, base, from, max)
    ensures Seen(soFar + recs[start..TakeEnd(|recs|, start, max - |soFar|)]) == Clip(n, base + |recs|, from, max)
  {
    var hi, room := base + |recs|, max - |soFar|;
    var end := TakeEnd(|recs|, start, room);
    calc {
      Seen(soFar + recs[start..end]);
      { SeenConcat(soFar, recs[start..end]); SeenSlice(recs, start, end); }
      Seen(soFar) + n[base..hi][start..end];
      { ClipPart(n, base, hi, start, room); }
      Clip(n, base, from, max) + Clip(n, hi, base + start, room);
      { ClipExtends(n, base, hi, from, max); }
      Clip(n, hi, from, max);
    }
  }

  function TakeEnd(len: nat, start: nat, room: nat): nat { if start + room <= len then start + room else len }

  /** Push records from `start` on until `max` are held. */
  method Take(soFar: seq<Record>, recs: seq<Record>, start: nat, max: nat) returns (out: seq<Record>)
    requires start <= |recs| && |soFar| <= max
    ensures out == soFar + recs[start..TakeEnd(|recs|, start, max - |soFar|)]
  {
    out := soFar;
    var k := start;
    while k < |recs| && |out| < max
      invariant start <= k <= |recs| && |out| <= max
      invariant out == soFar + recs[start..k]
    {
      out := out + [recs[k]];
      k := k + 1;
    }
  }

  class TieredSegmentedLog {
    const local: SegmentedLog
    const store: ObjectStore
    var offloaded: set<nat>
    ghost var flat: seq<Payload>
    ghost var cuts: set<nat>

    ghost function Tiers(): Tier
      reads this, local, store
    {
      Tier(local.Value(), store.objects, offloaded)
    }

    ghost predicate Valid()
      reads this, local, store
    {
      Represents(Tiers(), flat, cuts)
    }

    constructor (local: SegmentedLog, store: ObjectStore)
      requires local.Value() == NewLocal && forall b: nat :: SegmentKey(b) !in store.objects
      ensures Valid() && flat == [] && this.local == local && this.store == store
    {
      this.local, this.store := local, store;
      offloaded, flat, cuts := {}, [], {0};
      new;
      StartsEmpty(store.objects);
    }

    /**
     * Appends are sequential. The log goes on standing for the flat sequence as long as lengths and
     * segment ids stay within their 32 bits.
     */
    method Append(payload: Payload, now: nat) returns (offset: Option<nat>)
      requires Valid()
      modifies this, local
      ensures payload == [] ==> offset.None? && Valid() && Tiers() == old(Tiers()) && flat == old(flat)
      ensures payload != [] ==>
        && offset == Some(|old(flat)|) && store.objects == old(store.objects) && offloaded == old(offloaded)
        && local.Value() == Appended(old(local.Value()), payload, now, local.maxSegmentBytes)
      ensures payload != [] && |payload| < LIMIT && old(local.nextSegmentId) < LIMIT ==> Valid() && flat == old(flat) + [payload]
    {
      ghost var t := Tiers();
      offset := local.Append(payload, now);
      if payload != [] && |payload| < LIMIT && t.local.nextSegmentId < LIMIT {
        AppendRepresents(t, flat, cuts, payload, now, local.maxSegmentBytes);
        cuts := if Rolls(t.local, payload, local.maxSegmentBytes) then cuts + {|flat|} else cuts;
        flat := flat + [payload];
      }
    }

    /** Make sure the object store has the segment; false when it reported a failure. */
    method Store(s: Segment, ghost j: nat) returns (ok: bool)
      requires Valid() && j < |local.segments| && local.segments[j] == s && s.isSealed
      modifies store
      ensures Valid() && (ok ==> SegmentKey(s.base) in store.objects)
    {
      var key := SegmentKey(s.base);
      if key in store.objects {
        return true;
      }
      var buf := EncodeSegment(Payloads(s.records));
      ghost var t := Tiers();
      PutRepresents(t, flat, cuts, j);
      ok := store.Put(key, buf);
      assert Tiers() == t || Tiers() == t.(objects := t.objects[key := buf]);
    }

    /** Give up the local copy of a stored segment. */
    method Discard(s: Segment, ghost j: nat)
      requires Valid() && j < |local.segments| && local.segments[j] == s && s.isSealed
      requires SegmentKey(s.base) in store.objects
      modifies this`offloaded, local`segments
      ensures Valid() && local.segments == Without(old(local.segments), j)
    {
      ghost var t := Tiers();
      MoveRepresents(t, flat, cuts, j);
      OnlySealed(t.local, flat, cuts, j);
      local.DropSegment(s.id);
      offloaded := offloaded + {s.base};
      assert Tiers() == t.(local := t.local.(segments := Without(t.local.segments, j)), offloaded := t.offloaded + {s.base});
    }

    /** Move one sealed segment; `ok` is false when the object store reported a failure. */
    method OffloadOne(s: Segment) returns (ok: bool)
      requires Valid() && s in local.segments && s.isSealed
      modifies this`offloaded, local`segments, store
      ensures Valid()
      ensures !ok ==> local.segments == old(local.segments)
      ensures ok ==> exists j :: 0 <= j < |old(local.segments)| && old(local.segments)[j] == s && local.segments == Without(old(local.segments), j)
    {
      ghost var j :| 0 <= j < |local.segments| && local.segments[j] == s;
      ok := Store(s, j);
      if ok {
        Discard(s, j);
      }
    }

    /**
     * Offload every sealed segment. `None` is an error from the store part way; the segments moved
     * before it stay moved.
     */
    method OffloadSealed() returns (moved: Option<nat>)
      requires Valid()
      modifies this`offloaded, local`segments, store
      ensures Valid()
      ensures moved.Some? ==> |local.segments| == 1 && moved.value == |old(local.segments)| - 1
    {
      var pending := local.SealedSegments();
      var count := 0;
      for i := 0 to |pending|
        invariant Valid() && count == i
        invariant |local.segments| + count == |old(local.segments)|
        invariant forall k :: i <= k < |pending| ==> pending[k] in local.segments && pending[k].isSealed
        invariant forall s :: s in local.segments && s.isSealed ==> s in pending[i..]
        invariant forall j, k :: 0 <= j < k < |pending| ==> pending[j].id != pending[k].id
      {
        ghost var before := local.segments;
        var ok := OffloadOne(pending[i]);
        if !ok {
          return None;
        }
        DropLeavesRest(before, local.segments, pending, i);
        count := count + 1;
      }
      AllMoved(local.Value(), flat, cuts);
      moved := Some(count);
    }

    /** The records of the segment at `base`, from whichever tier has it, numbered from `base`. */
    method Fetch(base: nat, ghost end: nat) returns (recs: seq<Record>)
      requires Valid() && Stretch(flat, cuts, base, end)
      ensures base <= end <= |flat| && Seen(recs) == Number(flat)[base..end]
    {
      var fetched: seq<Record>;
      if base in offloaded {
        OffloadedContent(Tiers(), flat, cuts, base, end);
        fetched := DecodeSegment(store.objects[SegmentKey(base)]);
      } else {
        assert base in LocalBases(local.segments);
        var found := local.ReadSegmentRecords(base);
        fetched := found.value;
        ghost var s :| s in local.segments && s.base == base && found == Some(s.records);
        LocalContent(local.Value(), flat, cuts, s, end);
      }
      recs := Renumber(fetched, base);
      RenumberedPart(fetched, recs, flat, base, end);
    }

    /** Every record from `from` on, at most `max`, with the offsets it was appended at. */
    method Read(from: nat, max: nat) returns (r: Option<seq<Record>>)
      requires Valid()
      ensures r.Some? && Seen(r.value) == Window(flat, from, max)
    {
      var bases := AllBases(offloaded, local.segments);
      SortedStartsAtZero(flat, cuts, bases);
      var out: seq<Record> := [];
      var i := 0;
      while i < |bases|
        invariant 0 <= i <= |bases|
        invariant Seen(out) == Clip(Number(flat), if i < |bases| then bases[i] else |flat|, from, max)
        decreases |bases| - i
      {
        if |out| >= max {
          ClipFull(Number(flat), bases[i], from, max);
          return Some(out);
        }
        SortedStretch(flat, cuts, bases, i);
        out := ReadOne(out, bases[i], EndOf(flat, bases, i), from, max);
        i := i + 1;
      }
      return Some(out);
    }

    /** One turn of the read loop: the segment `flat[base..end]`. */
    method ReadOne(soFar: seq<Record>, base: nat, ghost end: nat, from: nat, max: nat) returns (out: seq<Record>)
      requires Valid() && Stretch(flat, cuts, base, end)
      requires |soFar| < max && Seen(soFar) == Clip(Number(flat), base, from, max)
      ensures Seen(out) == Clip(Number(flat), end, from, max)
    {
      var recs := Fetch(base, end);
      out := Extend(soFar, recs, base, from, max, Number(flat));
    }
  }

  lemma OnlySealed(l: Local, flat: seq<Payload>, cuts: set<nat>, j: nat)
    requires SegmentsOk(l, flat, cuts) && j < |l.segments| && l.segments[j].isSealed
    ensures FirstSealed(l.segments, l.segments[j].id, j)
  {
  }

  /** What is left after dropping the segment at `j`. */
  lemma WithoutMembers(segments: seq<Segment>, j: nat, s: Segment)
    requires j < |segments| && forall i, k :: 0 <= i < k < |segments| ==> segments[i].id != segments[k].id
    ensures s in Without(segments, j) <==> s in segments && s.id != segments[j].id
  {
    var after := Without(segments, j);
    if s in segments && s.id != segments[j].id {
      var m :| 0 <= m < |segments| && segments[m] == s;
      assert after[if m < j then m else m - 1] == s;
    }
    if s in after {
      var m :| 0 <= m < |after| && after[m] == s;
      assert segments[if m < j then m else m + 1] == s;
    }
  }

  lemma RenumberedPart(fetched: seq<Record>, recs: seq<Record>, flat: seq<Payload>, base: nat, end: nat)
    requires base <= end <= |flat| && Payloads(fetched) == flat[base..end] && |recs| == |fetched|
    requires forall k :: 0 <= k < |recs| ==> recs[k].payload == fetched[k].payload && recs[k].offset == base + k
    ensures Seen(recs) == Number(flat)[base..end]
  {
    forall k | 0 <= k < |recs| ensures recs[k].payload == flat[base + k] {
      assert Payloads(fetched)[k] == flat[base..end][k];
    }
    NumberedPart(recs, flat, base, end);
  }

  lemma DropLeavesRest(before: seq<Segment>, after: seq<Segment>, pending: seq<Segment>, i: nat)
    requires i < |pending|
    requires exists j :: 0 <= j < |before| && before[j] == pending[i] && after == Without(before, j)
    requires forall j, k :: 0 <= j < k < |before| ==> before[j].id != before[k].id
    requires forall j, k :: 0 <= j < k < |pending| ==> pending[j].id != pending[k].id
    requires forall k :: i <= k < |pending| ==> pending[k] in before
    requires forall s :: s in before && s.isSealed ==> s in pending[i..]
    ensures |after| + 1 == |before|
    ensures forall k :: i < k < |pending| ==> pending[k] in after
    ensures forall s :: s in after && s.isSealed ==> s in pending[i + 1..]
  {
    var j :| 0 <= j < |before| && before[j] == pending[i] && after == Without(before, j);
    forall k | i < k < |pending| ensures pending[k] in after {
      WithoutMembers(before, j, pending[k]);
    }
    forall s | s in after && s.isSealed ensures s in pending[i + 1..] {
      WithoutMembers(before, j, s);
      assert pending[i..] == [pending[i]] + pending[i + 1..];
    }
  }

  /** With no sealed segment left, only the active one is local. */
  lemma AllMoved(l: Local, flat: seq<Payload>, cuts: set<nat>)
    requires Cuts(flat, cuts) && SegmentsOk(l, flat, cuts)
    requires forall s :: s in l.segments ==> !s.isSealed
    ensures |l.segments| == 1
  {
    if |l.segments| > 1 {
      OthersSealed(l, flat, cuts, 0);
    }
  }
}
