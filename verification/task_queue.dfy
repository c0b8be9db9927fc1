/**
 * One routed task queue: a FIFO with in-flight entries, and on top of it leases with deadlines and
 * attempt counters. Every step is checked against the history of the queue.
 */
module TaskQueues {
  import opened Common

  type Payload = seq<byte>
  type Token = seq<byte>

  datatype Entry = Entry(seqNo: nat, payload: Payload)
  datatype Fifo = Fifo(ready: seq<Entry>, inflight: map<nat, Entry>, next: nat)
  datatype Lease = Lease(token: Token, expires: nat)
  datatype Tasks = Tasks(inner: Fifo, leases: map<nat, Lease>, attempts: map<nat, nat>, visibility: nat)

  const EMPTY_FIFO := Fifo([], map[], 0)

  // --- the FIFO ----------------------------------------------------------

  /** An empty payload is refused by the write-ahead log, before anything changes. */
  function Enqueue(f: Fifo, p: Payload): Fifo {
    if p == [] then f else f.(ready := f.ready + [Entry(f.next, p)], next := f.next + 1)
  }

  function Dequeue(f: Fifo): Fifo
    requires f.ready != []
  {
    f.(ready := f.ready[1..], inflight := f.inflight[f.ready[0].seqNo := f.ready[0]])
  }

  function Drop(f: Fifo, s: nat): Fifo { f.(inflight := f.inflight - {s}) }

  /** A refused entry goes to the front. */
  function Return(f: Fifo, s: nat): Fifo {
    if s in f.inflight then f.(ready := [f.inflight[s]] + f.ready, inflight := f.inflight - {s}) else f
  }

  // --- leases ------------------------------------------------------------

  function NewTasks(visibility: nat): Tasks { Tasks(EMPTY_FIFO, map[], map[], visibility) }

  function Attempts(q: Tasks, s: nat): nat { if s in q.attempts then q.attempts[s] else 0 }

  function Dispatch(q: Tasks, token: Token, now: nat): Tasks
    requires q.inner.ready != []
  {
    var s := q.inner.ready[0].seqNo;
    q.(inner := Dequeue(q.inner),
       attempts := q.attempts[s := Attempts(q, s) + 1],
       leases := q.leases[s := Lease(token, now + q.visibility)])
  }

  /** The entry is done: gone from the FIFO, the leases and the counters. */
  function Finish(q: Tasks, s: nat): Tasks {
    q.(inner := Drop(q.inner, s), leases := q.leases - {s}, attempts := q.attempts - {s})
  }

  /** The entry is ready again, its counter kept: a negative answer, or an expired lease. */
  function Release(q: Tasks, s: nat): Tasks {
    q.(inner := Return(q.inner, s), leases := q.leases - {s})
  }

  function ReleaseAll(q: Tasks, order: seq<nat>): Tasks {
    if order == [] then q else Release(ReleaseAll(q, order[..|order| - 1]), order[|order| - 1])
  }

  predicate LeasedAs(q: Tasks, s: nat, token: Token) { s in q.leases && q.leases[s].token == token }

  predicate Expired(q: Tasks, s: nat, now: nat) { s in q.leases && q.leases[s].expires <= now }

  /** The hash map hands the expired leases over in some order. */
  ghost predicate SweepOrder(q: Tasks, now: nat, order: seq<nat>) {
    Distinct(order) && forall s :: s in order <==> Expired(q, s, now)
  }

  // --- history -----------------------------------------------------------

  /** What happened to one queue: payloads enqueued, numbers handed out and numbers finished, in order. */
  datatype History = History(added: seq<Payload>, dispatched: seq<nat>, finished: seq<nat>)

  /** First occurrences only. */
  function Firsts(d: seq<nat>): seq<nat> {
    if d == [] then []
    else
      var front := d[..|d| - 1];
      Firsts(front) + (if d[|d| - 1] in front then [] else [d[|d| - 1]])
  }

  function Upto(n: nat): seq<nat> { seq(n, i => i) }

  function Numbers(r: seq<Entry>): (ns: seq<nat>)
    ensures |ns| == |r| && forall i :: 0 <= i < |r| ==> ns[i] == r[i].seqNo
  {
    seq(|r|, i requires 0 <= i < |r| => r[i].seqNo)
  }

  /** Every number below `next` is in exactly one of the three places, and in it once. */
  ghost predicate Parted(ns: seq<nat>, flying: set<nat>, finished: seq<nat>, next: nat) {
    && Distinct(ns) && Distinct(finished)
    && (forall s :: s in ns ==> s < next && s !in flying && s !in finished)
    && (forall s :: s in flying ==> s < next && s !in finished)
    && (forall s :: s in finished ==> s < next)
    && (forall s :: 0 <= s < next ==> s in ns || s in flying || s in finished)
  }

  /** Every number ever assigned is ready, in flight or finished. */
  ghost predicate Partition(f: Fifo, finished: seq<nat>) {
    Parted(Numbers(f.ready), f.inflight.Keys, finished, f.next)
  }

  /** Entries keep the payload they were added with. */
  ghost predicate Intact(f: Fifo, added: seq<Payload>) {
    && f.next == |added|
    && (forall i :: 0 <= i < |f.ready| ==> f.ready[i].seqNo < |added| && f.ready[i].payload == added[f.ready[i].seqNo])
    && (forall s :: s in f.inflight ==> s < |added| && f.inflight[s] == Entry(s, added[s]))
  }

  /** The entries never delivered are the numbers from `k` on, the last ones in `ready` and in order. */
  ghost predicate FreshSuffix(f: Fifo, finished: seq<nat>, k: nat) {
    && k <= f.next <= k + |f.ready|
    && (forall i :: |f.ready| - (f.next - k) <= i < |f.ready| ==> f.ready[i].seqNo == f.next - |f.ready| + i)
    && (forall i :: 0 <= i < |f.ready| - (f.next - k) ==> f.ready[i].seqNo < k)
    && (forall s :: s in f.inflight ==> s < k)
    && (forall s :: s in finished ==> s < k)
  }

  ghost predicate InOrder(d: seq<nat>, k: nat) {
    Firsts(d) == Upto(k) && forall s :: s in d <==> 0 <= s < k
  }

  /** The attempt counter of a task not yet finished is the number of its dispatches. */
  ghost predicate Counted(q: Tasks, h: History) {
    && (forall s :: s in q.attempts ==> s !in h.finished)
    && (forall s: nat :: s !in h.finished ==> Attempts(q, s) == Occurrences(h.dispatched, s))
  }

  ghost predicate QueueInv(q: Tasks, h: History) {
    && Partition(q.inner, h.finished) && Intact(q.inner, h.added) && q.leases.Keys == q.inner.inflight.Keys
    && FreshSuffix(q.inner, h.finished, |Firsts(h.dispatched)|) && InOrder(h.dispatched, |Firsts(h.dispatched)|)
    && Counted(q, h)
  }

  lemma FreshQueue(visibility: nat)
    ensures QueueInv(NewTasks(visibility), History([], [], []))
  {
  }

  // --- every step keeps the partition ------------------------------------

  lemma NumbersSnoc(r: seq<Entry>, e: Entry)
    ensures Numbers(r + [e]) == Numbers(r) + [e.seqNo]
  {
  }

  lemma NumbersCons(r: seq<Entry>, e: Entry)
    ensures Numbers([e] + r) == [e.seqNo] + Numbers(r)
  {
  }

  lemma PartedAdd(ns: seq<nat>, flying: set<nat>, finished: seq<nat>, next: nat)
    requires Parted(ns, flying, finished, next)
    ensures Parted(ns + [next], flying, finished, next + 1)
  {
    assert forall i :: 0 <= i < |ns| ==> ns[i] in ns;
  }

  lemma PartedTake(ns: seq<nat>, flying: set<nat>, finished: seq<nat>, next: nat)
    requires Parted(ns, flying, finished, next) && ns != []
    ensures Parted(ns[1..], flying + {ns[0]}, finished, next)
  {
    var rest := ns[1..];
    assert ns == [ns[0]] + rest && ns[0] in ns;
    forall s | s in rest ensures s in ns && s != ns[0] {
      var i :| 0 <= i < |rest| && rest[i] == s;
      assert ns[i + 1] == s;
    }
  }

  lemma PartedGiveBack(ns: seq<nat>, flying: set<nat>, finished: seq<nat>, next: nat, s: nat)
    requires Parted(ns, flying, finished, next) && s in flying
    ensures Parted([s] + ns, flying - {s}, finished, next)
  {
    assert forall i :: 0 <= i < |ns| ==> ns[i] in ns;
  }

  lemma PartedFinish(ns: seq<nat>, flying: set<nat>, finished: seq<nat>, next: nat, s: nat)
    requires Parted(ns, flying, finished, next) && s in flying
    ensures Parted(ns, flying - {s}, finished + [s], next)
  {
    assert forall i :: 0 <= i < |finished| ==> finished[i] in finished;
  }

  lemma EnqueuePartition(f: Fifo, p: Payload, finished: seq<nat>)
    requires Partition(f, finished)
    ensures Partition(Enqueue(f, p), finished)
  {
    if p != [] {
      NumbersSnoc(f.ready, Entry(f.next, p));
      PartedAdd(Numbers(f.ready), f.inflight.Keys, finished, f.next);
    }
  }

  lemma DequeuePartition(f: Fifo, finished: seq<nat>)
    requires Partition(f, finished) && f.ready != []
    ensures Partition(Dequeue(f), finished)
  {
    var ns, g := Numbers(f.ready), Dequeue(f);
    PartedTake(ns, f.inflight.Keys, finished, f.next);
    assert Numbers(g.ready) == ns[1..];
    assert g.inflight.Keys == f.inflight.Keys + {ns[0]};
  }

  lemma DropPartition(f: Fifo, s: nat, finished: seq<nat>)
    requires Partition(f, finished) && s in f.inflight
    ensures Partition(Drop(f, s), finished + [s])
  {
    PartedFinish(Numbers(f.ready), f.inflight.Keys, finished, f.next, s);
    assert Drop(f, s).inflight.Keys == f.inflight.Keys - {s};
  }

  lemma ReturnPartition(f: Fifo, s: nat, finished: seq<nat>, added: seq<Payload>)
    requires Partition(f, finished) && s in f.inflight && Intact(f, added)
    ensures Partition(Return(f, s), finished)
  {
    NumbersCons(f.ready, f.inflight[s]);
    PartedGiveBack(Numbers(f.ready), f.inflight.Keys, finished, f.next, s);
    assert Return(f, s).inflight.Keys == f.inflight.Keys - {s};
  }

  // --- every step keeps first deliveries in order ------------------------

  lemma FirstsSnoc(d: seq<nat>, x: nat)
    ensures Firsts(d + [x]) == Firsts(d) + (if x in d then [] else [x])
  {
    assert (d + [x])[..|d|] == d;
  }

  lemma OldDispatched(f: Fifo, finished: seq<nat>, d: seq<nat>, k: nat)
    requires FreshSuffix(f, finished, k) && InOrder(d, k) && f.ready != [] && f.ready[0].seqNo < k
    ensures FreshSuffix(Dequeue(f), finished, k) && InOrder(d + [f.ready[0].seqNo], k)
  {
    FirstsSnoc(d, f.ready[0].seqNo);
  }

  lemma NewDispatched(f: Fifo, finished: seq<nat>, d: seq<nat>, k: nat)
    requires FreshSuffix(f, finished, k) && InOrder(d, k) && f.ready != [] && f.ready[0].seqNo >= k
    ensures f.ready[0].seqNo == k && FreshSuffix(Dequeue(f), finished, k + 1) && InOrder(d + [k], k + 1)
  {
    FirstsSnoc(d, k);
    assert Upto(k) + [k] == Upto(k + 1);
  }

  lemma DispatchOrder(f: Fifo, finished: seq<nat>, d: seq<nat>, k: nat)
    requires FreshSuffix(f, finished, k) && InOrder(d, k) && f.ready != []
    ensures var s := f.ready[0].seqNo;
      var kNow := if s < k then k else k + 1;
      s <= k && FreshSuffix(Dequeue(f), finished, kNow) && InOrder(d + [s], kNow)
  {
    if f.ready[0].seqNo < k {
      OldDispatched(f, finished, d, k);
    } else {
      NewDispatched(f, finished, d, k);
    }
  }

  lemma ReturnFresh(f: Fifo, s: nat, finished: seq<nat>, k: nat, added: seq<Payload>)
    requires FreshSuffix(f, finished, k) && Intact(f, added)
    ensures FreshSuffix(Return(f, s), finished, k)
  {
  }

  // --- steps of the whole queue ------------------------------------------

  function Enqueued(q: Tasks, p: Payload): Tasks { q.(inner := Enqueue(q.inner, p)) }

  lemma EnqueueInv(q: Tasks, p: Payload, h: History)
    requires QueueInv(q, h)
    ensures QueueInv(Enqueued(q, p), if p == [] then h else h.(added := h.added + [p]))
  {
    EnqueuePartition(q.inner, p, h.finished);
  }

  lemma DispatchInv(q: Tasks, token: Token, now: nat, h: History)
    requires QueueInv(q, h) && q.inner.ready != []
    ensures QueueInv(Dispatch(q, token, now), h.(dispatched := h.dispatched + [q.inner.ready[0].seqNo]))
  {
    var s, k := q.inner.ready[0].seqNo, |Firsts(h.dispatched)|;
    DequeuePartition(q.inner, h.finished);
    DispatchOrder(q.inner, h.finished, h.dispatched, k);
    assert s == Numbers(q.inner.ready)[0];
    DispatchCounted(q, token, now, h);
  }

  lemma DispatchCounted(q: Tasks, token: Token, now: nat, h: History)
    requires Counted(q, h) && q.inner.ready != [] && q.inner.ready[0].seqNo !in h.finished
    ensures Counted(Dispatch(q, token, now), h.(dispatched := h.dispatched + [q.inner.ready[0].seqNo]))
  {
    var x := q.inner.ready[0].seqNo;
    forall s: nat | s !in h.finished
      ensures Attempts(Dispatch(q, token, now), s) == Occurrences(h.dispatched + [x], s)
    {
      OccurrencesSnoc(h.dispatched, x, s);
    }
  }

  lemma FinishInv(q: Tasks, s: nat, h: History)
    requires QueueInv(q, h) && s in q.leases
    ensures QueueInv(Finish(q, s), h.(finished := h.finished + [s]))
  {
    DropPartition(q.inner, s, h.finished);
  }

  lemma ReleaseInv(q: Tasks, s: nat, h: History)
    requires QueueInv(q, h) && s in q.leases
    ensures QueueInv(Release(q, s), h)
  {
    ReturnPartition(q.inner, s, h.finished, h.added);
    ReturnFresh(q.inner, s, h.finished, |Firsts(h.dispatched)|, h.added);
  }

  lemma {:induction false} ReleaseAllLeases(q: Tasks, order: seq<nat>)
    ensures ReleaseAll(q, order).leases == q.leases - Elements(order)
  {
    if order != [] {
      var front, s := order[..|order| - 1], order[|order| - 1];
      assert order == front + [s];
      ReleaseAllLeases(q, front);
      ElementsSnoc(front, s);
    }
  }

  lemma {:induction false} ReleaseAllInv(q: Tasks, order: seq<nat>, h: History)
    requires QueueInv(q, h) && Distinct(order) && forall s :: s in order ==> s in q.leases
    ensures QueueInv(ReleaseAll(q, order), h)
  {
    if order != [] {
      var front, s := order[..|order| - 1], order[|order| - 1];
      assert s in order && s !in Elements(front);
      ReleaseAllLeases(q, front);
      ReleaseAllInv(q, front, h);
      ReleaseInv(ReleaseAll(q, front), s, h);
    }
  }

  /** A sweep takes exactly the leases whose deadline has come. */
  lemma SweepExact(q: Tasks, now: nat, order: seq<nat>, s: nat)
    requires SweepOrder(q, now, order)
    ensures s in ReleaseAll(q, order).leases <==> s in q.leases && now < q.leases[s].expires
  {
    ReleaseAllLeases(q, order);
    ElementsIn(order, s);
  }
}
