/**
 * The two-tier segmented log: appends roll over into new segments, sealed segments move to an
 * object store, and reads merge both tiers. `Represents` says which flat sequence of payloads
 * such a pair of tiers stands for.
 */
module TieredLog {
  import opened Common
  import opened Decimal
  import opened SegmentCodec

  datatype Segment = Segment(id: nat, base: nat, records: seq<Record>, bytes: nat, isSealed: bool)
  datatype Local = Local(segments: seq<Segment>, nextOffset: nat, nextSegmentId: nat)
  datatype Tier = Tier(local: Local, objects: map<seq<byte>, seq<byte>>, offloaded: set<nat>)

  const NewLocal := Local([Segment(0, 0, [], 0, false)], 0, 1)

  /** "segments/{base}.log" */
  function SegmentKey(base: nat): seq<byte> {
    [115, 101, 103, 109, 101, 110, 116, 115, 47] + Render(base) + [46, 108, 111, 103]
  }

  lemma SegmentKeyInjective(a: nat, b: nat)
    requires SegmentKey(a) == SegmentKey(b)
    ensures a == b
  {
    var k, l := SegmentKey(a), SegmentKey(b);
    assert k[9..|k| - 4] == Render(a) && l[9..|l| - 4] == Render(b);
    RenderInjective(a, b);
  }

  function Grown(s: Segment, r: Record): Segment {
    s.(records := s.records + [r], bytes := s.bytes + |r.payload|)
  }

  predicate Rolls(l: Local, payload: Payload, maxBytes: nat)
    requires l.segments != []
  {
    var last := l.segments[|l.segments| - 1];
    last.bytes + |payload| > maxBytes && last.records != []
  }

  /** The effect of appending a non-empty payload. Segment ids are 32-bit. */
  function Appended(l: Local, payload: Payload, now: nat, maxBytes: nat): Local
    requires l.segments != []
  {
    var k := |l.segments| - 1;
    var r := Record(l.nextOffset, payload, now);
    if Rolls(l, payload, maxBytes) then
      var rolled := Segment(l.nextSegmentId % LIMIT, l.nextOffset, [], 0, false);
      Local(l.segments[..k] + [l.segments[k].(isSealed := true), Grown(rolled, r)], l.nextOffset + 1, l.nextSegmentId + 1)
    else
      Local(l.segments[..k] + [Grown(l.segments[k], r)], l.nextOffset + 1, l.nextSegmentId)
  }

  function Without(segments: seq<Segment>, j: nat): seq<Segment>
    requires j < |segments|
  {
    segments[..j] + segments[j + 1..]
  }

  // --- what the tiers stand for ------------------------------------------

  /** Cut points of `flat`; a cut at the very end exists only while the log is empty. */
  ghost predicate Cuts(flat: seq<Payload>, cuts: set<nat>) {
    && 0 in cuts && Framable(flat)
    && forall c :: c in cuts ==> c < |flat| || (c == 0 && flat == [])
  }

  /** `flat[b..e]` is one segment: no cut falls inside it. */
  ghost predicate Stretch(flat: seq<Payload>, cuts: set<nat>, b: nat, e: nat) {
    && b in cuts && b <= e <= |flat| && (b == e ==> flat == [])
    && (e == |flat| || e in cuts)
    && forall c :: c in cuts ==> c <= b || c >= e
  }

  ghost predicate Holds(s: Segment, flat: seq<Payload>, cuts: set<nat>) {
    var e := s.base + |s.records|;
    && Stretch(flat, cuts, s.base, e) && (s.isSealed <==> e < |flat|)
    && forall k :: 0 <= k < |s.records| ==> s.records[k].offset == s.base + k && s.records[k].payload == flat[s.base + k]
  }

  function LocalBases(segments: seq<Segment>): set<nat> {
    set j | 0 <= j < |segments| :: segments[j].base
  }

  ghost predicate SegmentsOk(l: Local, flat: seq<Payload>, cuts: set<nat>) {
    && l.nextOffset == |flat| && l.nextSegmentId <= LIMIT
    && l.segments != [] && !l.segments[|l.segments| - 1].isSealed
    && (forall j :: 0 <= j < |l.segments| ==> Holds(l.segments[j], flat, cuts) && l.segments[j].id < l.nextSegmentId)
    && (forall j, k :: 0 <= j < k < |l.segments| ==> l.segments[j].base != l.segments[k].base && l.segments[j].id != l.segments[k].id)
  }

  /** Objects hold sealed segments only, each under its own key and in full. */
  ghost predicate ObjectsOk(objects: map<seq<byte>, seq<byte>>, flat: seq<Payload>, cuts: set<nat>) {
    && (forall b: nat :: SegmentKey(b) in objects ==> b in cuts)
    && (forall b: nat, e: nat :: SegmentKey(b) in objects && Stretch(flat, cuts, b, e) ==>
          e < |flat| && objects[SegmentKey(b)] == Encode(flat[b..e]))
  }

  /** Every segment is in exactly one tier. */
  ghost predicate TiersSplit(t: Tier, cuts: set<nat>) {
    && t.offloaded + LocalBases(t.local.segments) == cuts && t.offloaded !! LocalBases(t.local.segments)
    && forall b :: b in t.offloaded ==> SegmentKey(b) in t.objects
  }

  ghost predicate Represents(t: Tier, flat: seq<Payload>, cuts: set<nat>) {
    Cuts(flat, cuts) && SegmentsOk(t.local, flat, cuts) && ObjectsOk(t.objects, flat, cuts) && TiersSplit(t, cuts)
  }

  lemma StartsEmpty(objects: map<seq<byte>, seq<byte>>)
    requires forall b: nat :: SegmentKey(b) !in objects
    ensures Represents(Tier(NewLocal, objects, {}), [], {0})
  {
    assert Holds(NewLocal.segments[0], [], {0});
    assert LocalBases(NewLocal.segments) == {0};
  }

  // --- appends -----------------------------------------------------------

  lemma StretchAppend(flat: seq<Payload>, cuts: set<nat>, p: Payload, b: nat, e: nat)
    requires Cuts(flat, cuts) && e < |flat|
    ensures Stretch(flat, cuts, b, e) ==> Stretch(flat + [p], cuts, b, e) && Stretch(flat + [p], cuts + {|flat|}, b, e)
  {
  }

  /** The last cut's segment is the active one, and the only one reaching the end. */
  lemma ActiveUnique(flat: seq<Payload>, cuts: set<nat>, a: nat, b: nat)
    requires Cuts(flat, cuts)
    ensures Stretch(flat, cuts, a, |flat|) && Stretch(flat, cuts, b, |flat|) ==> a == b
  {
  }

  lemma GrowHolds(s: Segment, flat: seq<Payload>, cuts: set<nat>, p: Payload, now: nat)
    requires Cuts(flat, cuts) && Holds(s, flat, cuts) && !s.isSealed
    ensures Holds(Grown(s, Record(|flat|, p, now)), flat + [p], cuts)
  {
  }

  lemma SealHolds(s: Segment, flat: seq<Payload>, cuts: set<nat>, p: Payload)
    requires Cuts(flat, cuts) && Holds(s, flat, cuts) && flat != []
    ensures Holds(s.(isSealed := true), flat + [p], cuts + {|flat|})
  {
  }

  /** Only the last local segment is unsealed. */
  lemma OthersSealed(l: Local, flat: seq<Payload>, cuts: set<nat>, j: nat)
    requires Cuts(flat, cuts) && SegmentsOk(l, flat, cuts) && j < |l.segments| - 1
    ensures l.segments[j].isSealed
  {
    var last := l.segments[|l.segments| - 1];
    assert Holds(l.segments[j], flat, cuts) && Holds(last, flat, cuts);
    ActiveUnique(flat, cuts, l.segments[j].base, last.base);
  }

  lemma SegmentsGrow(l: Local, flat: seq<Payload>, cuts: set<nat>, p: Payload, now: nat, maxBytes: nat)
    requires Cuts(flat, cuts) && SegmentsOk(l, flat, cuts) && !Rolls(l, p, maxBytes)
    ensures SegmentsOk(Appended(l, p, now, maxBytes), flat + [p], cuts)
  {
    var lNow, k := Appended(l, p, now, maxBytes), |l.segments| - 1;
    GrowHolds(l.segments[k], flat, cuts, p, now);
    forall j | 0 <= j < |lNow.segments| ensures Holds(lNow.segments[j], flat + [p], cuts) && lNow.segments[j].id < lNow.nextSegmentId {
      if j < k {
        OthersSealed(l, flat, cuts, j);
        KeepHolds(l.segments[j], flat, cuts, p, cuts);
      }
    }
    assert forall j :: 0 <= j <= k ==> lNow.segments[j].base == l.segments[j].base && lNow.segments[j].id == l.segments[j].id;
  }

  lemma KeepHolds(s: Segment, flat: seq<Payload>, cuts: set<nat>, p: Payload, cutsNow: set<nat>)
    requires Cuts(flat, cuts) && Holds(s, flat, cuts) && s.isSealed
    requires cutsNow == cuts || cutsNow == cuts + {|flat|}
    ensures Holds(s, flat + [p], cutsNow)
  {
    StretchAppend(flat, cuts, p, s.base, s.base + |s.records|);
  }

  lemma SegmentsRoll(l: Local, flat: seq<Payload>, cuts: set<nat>, p: Payload, now: nat, maxBytes: nat)
    requires Cuts(flat, cuts) && SegmentsOk(l, flat, cuts) && l.nextSegmentId < LIMIT && Rolls(l, p, maxBytes)
    ensures flat != [] && SegmentsOk(Appended(l, p, now, maxBytes), flat + [p], cuts + {|flat|})
  {
    var lNow, k := Appended(l, p, now, maxBytes), |l.segments| - 1;
    var last, rolled := l.segments[k], lNow.segments[k + 1];
    assert Holds(last, flat, cuts);
    SealHolds(last, flat, cuts, p);
    assert rolled == Grown(Segment(l.nextSegmentId, |flat|, [], 0, false), Record(|flat|, p, now));
    assert Holds(rolled, flat + [p], cuts + {|flat|});
    forall j | 0 <= j < |lNow.segments|
      ensures Holds(lNow.segments[j], flat + [p], cuts + {|flat|}) && lNow.segments[j].id < lNow.nextSegmentId
    {
      if j < k {
        OthersSealed(l, flat, cuts, j);
        KeepHolds(l.segments[j], flat, cuts, p, cuts + {|flat|});
      }
    }
    forall i, j | 0 <= i < j < |lNow.segments|
      ensures lNow.segments[i].base != lNow.segments[j].base && lNow.segments[i].id != lNow.segments[j].id
    {
      assert lNow.segments[i].base == l.segments[i].base && lNow.segments[i].id == l.segments[i].id;
      assert Holds(l.segments[i], flat, cuts);
    }
  }

  lemma BasesAppend(l: Local, p: Payload, now: nat, maxBytes: nat)
    requires l.segments != []
    ensures LocalBases(Appended(l, p, now, maxBytes).segments) ==
      LocalBases(l.segments) + (if Rolls(l, p, maxBytes) then {l.nextOffset} else {})
  {
    var lNow, k := Appended(l, p, now, maxBytes), |l.segments| - 1;
    assert forall j :: 0 <= j <= k ==> lNow.segments[j].base == l.segments[j].base;
    if Rolls(l, p, maxBytes) {
      assert lNow.segments[k + 1].base == l.nextOffset;
    }
    forall b | b in LocalBases(l.segments) ensures b in LocalBases(lNow.segments) {
      var j :| 0 <= j < |l.segments| && l.segments[j].base == b;
      assert lNow.segments[j].base == b;
    }
  }

  lemma ObjectsAppend(objects: map<seq<byte>, seq<byte>>, flat: seq<Payload>, cuts: set<nat>, p: Payload, cutsNow: set<nat>)
    requires Cuts(flat, cuts) && ObjectsOk(objects, flat, cuts) && (exists b :: Stretch(flat, cuts, b, |flat|))
    requires cutsNow == cuts || (flat != [] && cutsNow == cuts + {|flat|})
    ensures ObjectsOk(objects, flat + [p], cutsNow)
  {
    forall b: nat, e: nat | SegmentKey(b) in objects && Stretch(flat + [p], cutsNow, b, e)
      ensures e < |flat| + 1 && objects[SegmentKey(b)] == Encode((flat + [p])[b..e])
    {
      assert !Stretch(flat, cuts, b, |flat|);
      assert e < |flat|;
      assert Stretch(flat, cuts, b, e);
      assert (flat + [p])[b..e] == flat[b..e];
    }
  }

  lemma CutsAppend(flat: seq<Payload>, cuts: set<nat>, p: Payload)
    requires Cuts(flat, cuts) && |p| < LIMIT
    ensures Cuts(flat + [p], cuts) && Cuts(flat + [p], cuts + {|flat|})
  {
  }

  lemma RollRepresents(t: Tier, flat: seq<Payload>, cuts: set<nat>, p: Payload, now: nat, maxBytes: nat)
    requires Represents(t, flat, cuts) && |p| < LIMIT && t.local.nextSegmentId < LIMIT && Rolls(t.local, p, maxBytes)
    ensures Represents(t.(local := Appended(t.local, p, now, maxBytes)), flat + [p], cuts + {|flat|})
  {
    ActiveStretch(t.local, flat, cuts);
    CutsAppend(flat, cuts, p);
    SegmentsRoll(t.local, flat, cuts, p, now, maxBytes);
    ObjectsAppend(t.objects, flat, cuts, p, cuts + {|flat|});
    BasesAppend(t.local, p, now, maxBytes);
  }

  lemma GrowRepresents(t: Tier, flat: seq<Payload>, cuts: set<nat>, p: Payload, now: nat, maxBytes: nat)
    requires Represents(t, flat, cuts) && |p| < LIMIT && !Rolls(t.local, p, maxBytes)
    ensures Represents(t.(local := Appended(t.local, p, now, maxBytes)), flat + [p], cuts)
  {
    ActiveStretch(t.local, flat, cuts);
    CutsAppend(flat, cuts, p);
    SegmentsGrow(t.local, flat, cuts, p, now, maxBytes);
    ObjectsAppend(t.objects, flat, cuts, p, cuts);
    BasesAppend(t.local, p, now, maxBytes);
  }

  /** Appending keeps the tiers standing for the flat log, one payload longer. */
  lemma AppendRepresents(t: Tier, flat: seq<Payload>, cuts: set<nat>, p: Payload, now: nat, maxBytes: nat)
    requires Represents(t, flat, cuts) && |p| < LIMIT && t.local.nextSegmentId < LIMIT
    ensures Represents(t.(local := Appended(t.local, p, now, maxBytes)), flat + [p],
                       if Rolls(t.local, p, maxBytes) then cuts + {|flat|} else cuts)
  {
    if Rolls(t.local, p, maxBytes) {
      RollRepresents(t, flat, cuts, p, now, maxBytes);
    } else {
      GrowRepresents(t, flat, cuts, p, now, maxBytes);
    }
  }

  lemma ActiveStretch(l: Local, flat: seq<Payload>, cuts: set<nat>)
    requires SegmentsOk(l, flat, cuts)
    ensures exists b :: Stretch(flat, cuts, b, |flat|)
  {
    var last := l.segments[|l.segments| - 1];
    assert Holds(last, flat, cuts) && Stretch(flat, cuts, last.base, |flat|);
  }

  // --- offload -----------------------------------------------------------

  lemma StretchUnique(flat: seq<Payload>, cuts: set<nat>, b: nat, e: nat, f: nat)
    requires Cuts(flat, cuts) && Stretch(flat, cuts, b, e) && Stretch(flat, cuts, b, f)
    ensures e == f
  {
  }

  lemma PutObjects(objects: map<seq<byte>, seq<byte>>, s: Segment, flat: seq<Payload>, cuts: set<nat>)
    requires Cuts(flat, cuts) && ObjectsOk(objects, flat, cuts) && Holds(s, flat, cuts) && s.isSealed
    ensures ObjectsOk(objects[SegmentKey(s.base) := Encode(Payloads(s.records))], flat, cuts)
  {
    var key, end := SegmentKey(s.base), s.base + |s.records|;
    assert Payloads(s.records) == flat[s.base..end];
    var objectsNow := objects[key := Encode(Payloads(s.records))];
    forall b: nat | SegmentKey(b) in objectsNow ensures b in cuts {
      if SegmentKey(b) == key {
        SegmentKeyInjective(b, s.base);
      }
    }
    forall b: nat, e: nat | SegmentKey(b) in objectsNow && Stretch(flat, cuts, b, e)
      ensures e < |flat| && objectsNow[SegmentKey(b)] == Encode(flat[b..e])
    {
      if SegmentKey(b) == key {
        SegmentKeyInjective(b, s.base);
        StretchUnique(flat, cuts, b, e, end);
      }
    }
  }

  /** Storing a sealed segment's object changes nothing a reader sees. */
  lemma PutRepresents(t: Tier, flat: seq<Payload>, cuts: set<nat>, j: nat)
    requires Represents(t, flat, cuts) && j < |t.local.segments| && t.local.segments[j].isSealed
    ensures var s := t.local.segments[j];
      Represents(t.(objects := t.objects[SegmentKey(s.base) := Encode(Payloads(s.records))]), flat, cuts)
  {
    PutObjects(t.objects, t.local.segments[j], flat, cuts);
  }

  lemma WithoutKeeps(segments: seq<Segment>, j: nat)
    requires j < |segments|
    requires forall i, k :: 0 <= i < k < |segments| ==> segments[i].base != segments[k].base
    ensures LocalBases(Without(segments, j)) == LocalBases(segments) - {segments[j].base}
  {
    var ssNow := Without(segments, j);
    forall b | b in LocalBases(segments) && b != segments[j].base ensures b in LocalBases(ssNow) {
      var k :| 0 <= k < |segments| && segments[k].base == b;
      assert ssNow[if k < j then k else k - 1].base == b;
    }
    forall b | b in LocalBases(ssNow) ensures b in LocalBases(segments) && b != segments[j].base {
      var k :| 0 <= k < |ssNow| && ssNow[k].base == b;
      assert segments[if k < j then k else k + 1].base == b;
    }
  }

  /** Dropping a sealed segment whose object is stored changes nothing a reader sees. */
  lemma MoveRepresents(t: Tier, flat: seq<Payload>, cuts: set<nat>, j: nat)
    requires Represents(t, flat, cuts) && j < |t.local.segments| && t.local.segments[j].isSealed
    requires SegmentKey(t.local.segments[j].base) in t.objects
    ensures Represents(t.(local := t.local.(segments := Without(t.local.segments, j)),
                          offloaded := t.offloaded + {t.local.segments[j].base}), flat, cuts)
  {
    var ss := t.local.segments;
    assert j < |ss| - 1;
    WithoutKeeps(ss, j);
    MoveSegments(t.local, flat, cuts, j);
    assert ss[j].base in LocalBases(ss);
  }

  lemma MoveSegments(l: Local, flat: seq<Payload>, cuts: set<nat>, j: nat)
    requires SegmentsOk(l, flat, cuts) && j < |l.segments| - 1
    ensures SegmentsOk(l.(segments := Without(l.segments, j)), flat, cuts)
  {
    var ss, ssNow := l.segments, Without(l.segments, j);
    assert forall k :: 0 <= k < j ==> ssNow[k] == ss[k];
    forall k | j <= k < |ssNow| ensures ssNow[k] == ss[k + 1] {
    }
  }

  // --- reads -------------------------------------------------------------

  type Numbered = seq<(nat, Payload)>

  /** The flat log with its offsets. */
  function Number(flat: seq<Payload>): (n: Numbered)
    ensures |n| == |flat|
  {
    seq(|flat|, k requires 0 <= k < |flat| => (k, flat[k]))
  }

  /** At most `max` items of `n[..hi]` from `from` on. */
  function Clip(n: Numbered, hi: nat, from: nat, max: nat): Numbered
    requires hi <= |n|
  {
    if from >= hi then [] else if from + max <= hi then n[from..from + max] else n[from..hi]
  }

  /** At most `max` payloads from offset `from` on, with their offsets. */
  function Window(flat: seq<Payload>, from: nat, max: nat): Numbered {
    Clip(Number(flat), |flat|, from, max)
  }

  /** What a reader compares: offload resets timestamps. */
  function Seen(rs: seq<Record>): (s: Numbered)
    ensures |s| == |rs|
  {
    seq(|rs|, k requires 0 <= k < |rs| => (rs[k].offset, rs[k].payload))
  }

  lemma SeenSlice(rs: seq<Record>, a: nat, b: nat)
    requires a <= b <= |rs|
    ensures Seen(rs[a..b]) == Seen(rs)[a..b]
  {
  }

  lemma SeenConcat(a: seq<Record>, b: seq<Record>)
    ensures Seen(a + b) == Seen(a) + Seen(b)
  {
  }

  predicate Ascending(s: seq<nat>) { forall i, j :: 0 <= i < j < |s| ==> s[i] < s[j] }

  /** Where the segment that starts at the `i`-th of the sorted cuts ends. */
  function EndOf(flat: seq<Payload>, sorted: seq<nat>, i: nat): nat
    requires i < |sorted|
  {
    if i + 1 < |sorted| then sorted[i + 1] else |flat|
  }

  lemma SortedStretch(flat: seq<Payload>, cuts: set<nat>, sorted: seq<nat>, i: nat)
    requires Cuts(flat, cuts) && Ascending(sorted) && Elements(sorted) == cuts && i < |sorted|
    ensures Stretch(flat, cuts, sorted[i], EndOf(flat, sorted, i))
  {
    var b, e := sorted[i], EndOf(flat, sorted, i);
    assert b in Elements(sorted);
    if i + 1 < |sorted| {
      assert e in Elements(sorted);
    }
    forall c | c in cuts ensures c <= b || c >= e {
      var k :| 0 <= k < |sorted| && sorted[k] == c;
    }
  }

  lemma SortedStartsAtZero(flat: seq<Payload>, cuts: set<nat>, sorted: seq<nat>)
    requires Cuts(flat, cuts) && Ascending(sorted) && Elements(sorted) == cuts
    ensures sorted != [] && sorted[0] == 0
    ensures forall i :: 0 <= i < |sorted| ==> sorted[i] <= |flat|
  {
    assert forall i :: 0 <= i < |sorted| ==> sorted[i] in Elements(sorted);
    var k :| 0 <= k < |sorted| && sorted[k] == 0;
  }

  /** What the object store returns for an offloaded segment. */
  lemma OffloadedContent(t: Tier, flat: seq<Payload>, cuts: set<nat>, base: nat, end: nat)
    requires Represents(t, flat, cuts) && Stretch(flat, cuts, base, end) && base in t.offloaded
    ensures SegmentKey(base) in t.objects && Decode(t.objects[SegmentKey(base)]) == flat[base..end]
  {
    assert t.objects[SegmentKey(base)] == Encode(flat[base..end]);
    DecodeEncode(flat[base..end]);
  }

  /** What the local tier holds for a segment. */
  lemma LocalContent(l: Local, flat: seq<Payload>, cuts: set<nat>, s: Segment, end: nat)
    requires Cuts(flat, cuts) && SegmentsOk(l, flat, cuts) && s in l.segments && Stretch(flat, cuts, s.base, end)
    ensures Payloads(s.records) == flat[s.base..end]
  {
    assert Holds(s, flat, cuts);
    StretchUnique(flat, cuts, s.base, end, s.base + |s.records|);
  }

  /** Reading one more segment extends the window to that segment's end. */
  lemma ClipExtends(n: Numbered, lo: nat, hi: nat, from: nat, max: nat)
    requires lo <= hi <= |n|
    ensures var done, start := Clip(n, lo, from, max), if from > lo then from else lo;
      |done| <= max && Clip(n, hi, from, max) == done + Clip(n, hi, start, max - |done|)
  {
  }

  /** The part of the window that falls into the segment `n[base..hi]`. */
  lemma ClipPart(n: Numbered, base: nat, hi: nat, start: nat, room: nat)
    requires base + start <= hi <= |n|
    ensures Clip(n, hi, base + start, room) ==
      n[base..hi][start..if start + room <= hi - base then start + room else hi - base]
  {
    var stop := if start + room <= hi - base then start + room else hi - base;
    SliceOfSlice(n, base, hi, start, stop);
  }

  /** Records numbered from `base` on that hold `flat[base..end]` are that part of the numbered log. */
  lemma NumberedPart(recs: seq<Record>, flat: seq<Payload>, base: nat, end: nat)
    requires base <= end <= |flat| && |recs| == end - base
    requires forall k :: 0 <= k < |recs| ==> recs[k].offset == base + k && recs[k].payload == flat[base + k]
    ensures Seen(recs) == Number(flat)[base..end]
  {
  }

  lemma ClipFull(n: Numbered, lo: nat, from: nat, max: nat)
    requires lo <= |n| && |Clip(n, lo, from, max)| >= max
    ensures Clip(n, lo, from, max) == Clip(n, |n|, from, max)
  {
  }

  // --- whole runs --------------------------------------------------------

  /** An append; an object stored, whether or not the store then reports it; a stored segment dropped locally. */
  datatype Step = DoAppend(payload: Payload, now: nat) | DoStore(j: nat) | DoDrop(j: nat)

  /** The tiers, everything appended so far, and where the segments begin. */
  datatype World = World(t: Tier, flat: seq<Payload>, cuts: set<nat>)

  predicate Enabled(t: Tier, s: Step) {
    match s
    case DoAppend(p, _) => t.local.segments != [] && p != [] && |p| < LIMIT && t.local.nextSegmentId < LIMIT
    case DoStore(j) => j < |t.local.segments| && t.local.segments[j].isSealed && SegmentKey(t.local.segments[j].base) !in t.objects
    case DoDrop(j) => j < |t.local.segments| && t.local.segments[j].isSealed && SegmentKey(t.local.segments[j].base) in t.objects
  }

  function Next(w: World, s: Step, maxBytes: nat): World {
    if !Enabled(w.t, s) then w
    else
      match s
      case DoAppend(p, now) =>
        World(w.t.(local := Appended(w.t.local, p, now, maxBytes)), w.flat + [p],
              if Rolls(w.t.local, p, maxBytes) then w.cuts + {|w.flat|} else w.cuts)
      case DoStore(j) =>
        var seg := w.t.local.segments[j];
        w.(t := w.t.(objects := w.t.objects[SegmentKey(seg.base) := Encode(Payloads(seg.records))]))
      case DoDrop(j) =>
        w.(t := w.t.(local := w.t.local.(segments := Without(w.t.local.segments, j)),
                     offloaded := w.t.offloaded + {w.t.local.segments[j].base}))
  }

  function Run(objects: map<seq<byte>, seq<byte>>, steps: seq<Step>, maxBytes: nat): World {
    if steps == [] then World(Tier(NewLocal, objects, {}), [], {0})
    else Next(Run(objects, steps[..|steps| - 1], maxBytes), steps[|steps| - 1], maxBytes)
  }

  lemma NextRepresents(w: World, s: Step, maxBytes: nat)
    requires Represents(w.t, w.flat, w.cuts)
    ensures var v := Next(w, s, maxBytes); Represents(v.t, v.flat, v.cuts)
  {
    if Enabled(w.t, s) {
      match s
      case DoAppend(p, now) => AppendRepresents(w.t, w.flat, w.cuts, p, now, maxBytes);
      case DoStore(j) => PutRepresents(w.t, w.flat, w.cuts, j);
      case DoDrop(j) => MoveRepresents(w.t, w.flat, w.cuts, j);
    }
  }

  /** After any interleaving of appends and offloads, however far each got, the tiers stand for everything appended. */
  lemma {:induction false} RunRepresents(objects: map<seq<byte>, seq<byte>>, steps: seq<Step>, maxBytes: nat)
    requires forall b: nat :: SegmentKey(b) !in objects
    ensures var w := Run(objects, steps, maxBytes); Represents(w.t, w.flat, w.cuts)
  {
    if steps == [] {
      StartsEmpty(objects);
    } else {
      RunRepresents(objects, steps[..|steps| - 1], maxBytes);
      NextRepresents(Run(objects, steps[..|steps| - 1], maxBytes), steps[|steps| - 1], maxBytes);
    }
  }
}
