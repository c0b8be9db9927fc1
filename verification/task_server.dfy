/** The queue, the task queue over it and the manager of all task queues, as objects updated in place. */
module TaskServer {
  import opened Common
  import opened TaskQueues
  import opened TaskLeases

  class Queue {
    var ready: seq<Entry>
    var inflight: map<nat, Entry>
    var next: nat

    function State(): Fifo
      reads this
    {
      Fifo(ready, inflight, next)
    }

    constructor ()
      ensures State() == EMPTY_FIFO
    {
      ready, inflight, next := [], map[], 0;
    }

    constructor Holding(f: Fifo)
      ensures State() == f
    {
      ready, inflight, next := f.ready, f.inflight, f.next;
    }

    method Enqueue(p: Payload) returns (r: Option<nat>)
      modifies this
      ensures State() == TaskQueues.Enqueue(old(State()), p)
      ensures r == if p == [] then None else Some(old(next))
    {
      if p == [] {
        return None;
      }
      r := Some(next);
      ready := ready + [Entry(next, p)];
      next := next + 1;
    }

    method Dequeue() returns (r: Option<Entry>)
      modifies this
      ensures old(ready) == [] ==> r.None? && State() == old(State())
      ensures old(ready) != [] ==> r == Some(old(ready)[0]) && State() == TaskQueues.Dequeue(old(State()))
    {
      if ready == [] {
        return None;
      }
      var e := ready[0];
      ready := ready[1..];
      inflight := inflight[e.seqNo := e];
      return Some(e);
    }

    method Ack(s: nat) returns (ok: bool)
      modifies this
      ensures ok == (s in old(inflight)) && State() == Drop(old(State()), s)
    {
      ok := s in inflight;
      inflight := inflight - {s};
    }

    method Nack(s: nat) returns (ok: bool)
      modifies this
      ensures ok == (s in old(inflight)) && State() == Return(old(State()), s)
    {
      ok := s in inflight;
      if ok {
        ready := [inflight[s]] + ready;
        inflight := inflight - {s};
      }
    }

    method Depth() returns (n: nat)
      ensures n == DepthOf(State())
    {
      n := |ready| + |inflight|;
    }
  }

  function DepthOf(f: Fifo): nat { |f.ready| + |f.inflight| }

  /** The depth is what was enqueued and is not finished. */
  lemma DepthConserved(q: Tasks, h: History)
    requires QueueInv(q, h)
    ensures DepthOf(q.inner) + |h.finished| == |h.added|
  {
    var ns, flying := Numbers(q.inner.ready), q.inner.inflight.Keys;
    DistinctCount(ns);
    DistinctCount(h.finished);
    DistinctCount(Upto(q.inner.next));
    Places(ns, flying, h.finished, q.inner.next);
    assert |flying| == |q.inner.inflight|;
  }

  lemma Places(ns: seq<nat>, flying: set<nat>, finished: seq<nat>, next: nat)
    requires Parted(ns, flying, finished, next)
    ensures |Elements(ns)| + |flying| + |Elements(finished)| == |Elements(Upto(next))|
  {
    var a, b, all := Elements(ns), Elements(finished), Elements(Upto(next));
    forall s ensures (s in a <==> s in ns) && (s in b <==> s in finished) && (s in all <==> 0 <= s < next) {
      ElementsIn(ns, s);
      ElementsIn(finished, s);
      ElementsIn(Upto(next), s);
      assert 0 <= s < next ==> Upto(next)[s] == s;
    }
    assert a !! flying !! b && a + flying + b == all;
  }

  /** What freshness of tokens gives one queue: its leases are the entries in flight, one token each. */
  ghost predicate TasksOk(q: Tasks) {
    q.leases.Keys == q.inner.inflight.Keys
    && forall a, b :: a in q.leases && b in q.leases && q.leases[a].token == q.leases[b].token ==> a == b
  }

  class TaskQueue {
    const inner: Queue
    var leases: map<nat, Lease>
    var attempts: map<nat, nat>
    var visibility: nat

    function State(): Tasks
      reads this, inner
    {
      Tasks(inner.State(), leases, attempts, visibility)
    }

    constructor (visibility: nat)
      ensures State() == NewTasks(visibility) && fresh(inner)
    {
      inner := new Queue();
      leases, attempts, this.visibility := map[], map[], visibility;
    }

    constructor Holding(q: Tasks)
      ensures State() == q && fresh(inner)
    {
      inner := new Queue.Holding(q.inner);
      leases, attempts, visibility := q.leases, q.attempts, q.visibility;
    }

    method SetVisibility(d: nat)
      modifies this
      ensures State() == old(State()).(visibility := d)
    {
      visibility := d;
    }

    method Enqueue(p: Payload) returns (r: Option<nat>)
      modifies inner
      ensures State() == Enqueued(old(State()), p)
      ensures r == if p == [] then None else Some(old(inner.next))
    {
      r := inner.Enqueue(p);
    }

    method Dispatch(token: Token, now: nat) returns (r: Option<(Entry, nat)>)
      requires TasksOk(State()) && forall s :: !LeasedAs(State(), s, token)
      modifies this, inner
      ensures TasksOk(State())
      ensures old(inner.ready) == [] ==> r.None? && State() == old(State())
      ensures old(inner.ready) != [] ==>
        var e := old(inner.ready)[0];
        r == Some((e, Attempts(old(State()), e.seqNo) + 1)) && State() == TaskQueues.Dispatch(old(State()), token, now)
    {
      assert forall s :: s in leases ==> !LeasedAs(State(), s, token);
      var next := inner.Dequeue();
      if next.None? {
        return None;
      }
      var s := next.value.seqNo;
      var n := (if s in attempts then attempts[s] else 0) + 1;
      attempts := attempts[s := n];
      leases := leases[s := Lease(token, now + visibility)];
      r := Some((next.value, n));
    }

    method Ack(token: Token) returns (ok: bool)
      requires TasksOk(State())
      modifies this, inner
      ensures TasksOk(State())
      ensures ok == exists s :: LeasedAs(old(State()), s, token)
      ensures !ok ==> State() == old(State())
      ensures forall s :: LeasedAs(old(State()), s, token) ==> State() == Finish(old(State()), s)
    {
      var found := FindLease(State(), token);
      if found.None? {
        return false;
      }
      var _ := inner.Ack(found.value);
      leases := leases - {found.value};
      attempts := attempts - {found.value};
      return true;
    }

    method Nack(token: Token) returns (ok: bool)
      requires TasksOk(State())
      modifies this, inner
      ensures TasksOk(State())
      ensures ok == exists s :: LeasedAs(old(State()), s, token)
      ensures !ok ==> State() == old(State())
      ensures forall s :: LeasedAs(old(State()), s, token) ==> State() == Release(old(State()), s)
    {
      var found := FindLease(State(), token);
      if found.None? {
        return false;
      }
      ok := inner.Nack(found.value);
      leases := leases - {found.value};
    }

    /** Redeliver every expired lease, in whatever order the map yields them. */
    method Sweep(now: nat) returns (redelivered: nat, ghost order: seq<nat>)
      requires TasksOk(State())
      modifies this, inner
      ensures SweepOrder(old(State()), now, order) && redelivered == |order|
      ensures State() == ReleaseAll(old(State()), order) && TasksOk(State())
    {
      var expired := set s | s in leases && leases[s].expires <= now;
      var left := expired;
      order, redelivered := [], 0;
      while left != {}
        invariant left <= expired && Distinct(order) && Elements(order) == expired - left
        invariant left <= inner.inflight.Keys && redelivered == |order|
        invariant State() == ReleaseAll(old(State()), order) && TasksOk(State())
        decreases left
      {
        var s :| s in left;
        ElementsSnoc(order, s);
        assert (order + [s])[..|order|] == order && s !in Elements(order);
        leases := leases - {s};
        var ok := inner.Nack(s);
        if ok {
          redelivered := redelivered + 1;
        }
        order, left := order + [s], left - {s};
      }
      assert forall s :: s in order <==> s in Elements(order);
    }
  }

  /** Tenant, task queue and task type joined with "|". */
  function QueueKey(tenant: Key, taskQueue: Key, taskType: Option<Key>): Key {
    tenant + [124] + taskQueue + [124] + (if taskType.Some? then taskType.value else [])
  }

  datatype Delivered = Delivered(token: Token, payload: Payload, attempt: nat)

  /**
   * The manager. Its task queues are kept as values: an operation takes one up as a `TaskQueue`,
   * works on it in place and puts its new value back.
   */
  class TaskQueueManager {
    var queues: map<Key, Tasks>
    var tokenIndex: map<Token, Key>
    var completed: map<Token, nat>

    ghost function State(): Manager
      reads this
    {
      Manager(queues, tokenIndex, completed)
    }

    ghost predicate Valid()
      reads this
    {
      forall k :: k in queues ==> TasksOk(queues[k])
    }

    constructor ()
      ensures Valid() && State() == NEW_MANAGER
    {
      queues, tokenIndex, completed := map[], map[], map[];
    }

    /** Find the queue, or create it if the quota has room. */
    method GetOrCreate(key: Key, room: bool) returns (ok: bool)
      requires Valid()
      modifies this
      ensures Valid() && ok == CanOpen(old(State()), key, room) && (ok ==> key in queues)
      ensures State() == if ok then Open(old(State()), key, None) else old(State())
    {
      if key in queues {
        assert queues[key := queues[key]] == queues;
        return true;
      }
      if room {
        queues := queues[key := NewTasks(DEFAULT_VISIBILITY)];
      }
      return room;
    }

    /** Enqueue a task; a queue without a name, a full tenant and an empty payload are refused. */
    method AddTask(tenant: Key, taskQueue: Key, taskType: Option<Key>, payload: Payload, vis: Option<nat>, room: bool)
      returns (r: Option<nat>)
      requires Valid()
      modifies this
      ensures Valid()
      ensures var key := QueueKey(tenant, taskQueue, taskType);
        if taskQueue == [] || !CanOpen(old(State()), key, room) then State() == old(State()) && r.None?
        else
          && State() == Add(old(State()), key, payload, vis)
          && r == if payload == [] then None else Some(QueueOf(old(State()), key).inner.next)
    {
      if taskQueue == [] {
        return None;
      }
      var key := QueueKey(tenant, taskQueue, taskType);
      var ok := GetOrCreate(key, room);
      if !ok {
        return None;
      }
      var q;
      q, r := EnqueueOn(queues[key], vis, payload);
      queues := queues[key := q];
    }

    method Take(key: Key, token: Token, now: nat) returns (r: Option<Delivered>)
      requires Valid() && forall k, s :: k in queues ==> !LeasedAs(queues[k], s, token)
      modifies this
      ensures Valid()
      ensures !HasReady(old(State()), key) ==> r.None? && State() == old(State())
      ensures HasReady(old(State()), key) ==>
        var q := old(queues)[key];
        var e := q.inner.ready[0];
        State() == TaskLeases.Take(old(State()), key, token, now)
        && r == Some(Delivered(token, e.payload, Attempts(q, e.seqNo) + 1))
    {
      if key !in queues {
        return None;
      }
      var q, d := DispatchOn(queues[key], token, now);
      if d.None? {
        return None;
      }
      queues := queues[key := q];
      tokenIndex := tokenIndex[token := key];
      r := Some(Delivered(token, d.value.0.payload, d.value.1));
    }

    method Respond(token: Token, failed: bool, now: nat) returns (result: AckResult)
      requires Valid()
      modifies this
      ensures Valid()
      ensures result == ResultOf(old(State()), token, now)
      ensures State() == TaskLeases.Respond(old(State()), token, failed, now)
    {
      completed := map t | t in completed && now < completed[t] + COMPLETED_TTL :: completed[t];
      if token in completed {
        return Duplicate;
      }
      if token !in tokenIndex || tokenIndex[token] !in queues {
        return Unknown;
      }
      var key := tokenIndex[token];
      var q, ok := SettleOn(queues[key], token, failed);
      if !ok {
        return Unknown;
      }
      assert LeasedAs(queues[key], LeaseOf(old(State()), token).value.seqNo, token);
      queues := queues[key := q];
      completed := completed[token := now];
      tokenIndex := tokenIndex - {token};
      return Accepted;
    }

    /** One round of the sweeper over every queue. */
    method Sweep(now: nat)
      requires Valid()
      modifies this
      ensures Valid() && queues.Keys == old(queues).Keys && tokenIndex == old(tokenIndex) && completed == old(completed)
      ensures forall k :: k in queues ==> Swept(old(queues)[k], queues[k], now)
    {
      var left := queues.Keys;
      while left != {}
        invariant Valid() && left <= queues.Keys == old(queues).Keys
        invariant tokenIndex == old(tokenIndex) && completed == old(completed)
        invariant forall k :: k in queues.Keys - left ==> Swept(old(queues)[k], queues[k], now)
        invariant forall k :: k in left ==> queues[k] == old(queues)[k]
        decreases left
      {
        var k :| k in left;
        var q := SweepQueue(queues[k], now);
        queues := queues[k := q];
        left := left - {k};
      }
    }
  }

  ghost predicate Swept(q: Tasks, r: Tasks, now: nat) {
    exists order :: SweepOrder(q, now, order) && r == ReleaseAll(q, order)
  }

  /** Search the leases for the token. */
  method FindLease(q: Tasks, token: Token) returns (r: Option<nat>)
    ensures r.Some? ==> LeasedAs(q, r.value, token)
    ensures r.None? ==> forall s :: !LeasedAs(q, s, token)
  {
    var left := q.leases.Keys;
    while left != {}
      invariant left <= q.leases.Keys
      invariant forall s :: s in q.leases.Keys - left ==> q.leases[s].token != token
      decreases left
    {
      var s :| s in left;
      if q.leases[s].token == token {
        return Some(s);
      }
      left := left - {s};
    }
    return None;
  }

  // --- one queue taken up, worked on in place and put back -----------------

  method EnqueueOn(q: Tasks, vis: Option<nat>, p: Payload) returns (r: Tasks, n: Option<nat>)
    requires TasksOk(q)
    ensures TasksOk(r) && r == Enqueued(Visible(q, vis), p) && n == if p == [] then None else Some(q.inner.next)
  {
    var tq := new TaskQueue.Holding(q);
    if vis.Some? {
      tq.SetVisibility(vis.value);
    }
    n := tq.Enqueue(p);
    r := tq.State();
  }

  method DispatchOn(q: Tasks, token: Token, now: nat) returns (r: Tasks, d: Option<(Entry, nat)>)
    requires TasksOk(q) && forall s :: !LeasedAs(q, s, token)
    ensures TasksOk(r) && (q.inner.ready == [] ==> d.None? && r == q)
    ensures q.inner.ready != [] ==>
      var e := q.inner.ready[0]; d == Some((e, Attempts(q, e.seqNo) + 1)) && r == Dispatch(q, token, now)
  {
    var tq := new TaskQueue.Holding(q);
    d := tq.Dispatch(token, now);
    r := tq.State();
  }

  method SettleOn(q: Tasks, token: Token, failed: bool) returns (r: Tasks, ok: bool)
    requires TasksOk(q)
    ensures TasksOk(r) && ok == exists s :: LeasedAs(q, s, token)
    ensures !ok ==> r == q
    ensures forall s :: LeasedAs(q, s, token) ==> r == Settle(q, s, failed)
  {
    var tq := new TaskQueue.Holding(q);
    if failed {
      ok := tq.Nack(token);
    } else {
      ok := tq.Ack(token);
    }
    r := tq.State();
  }

  method SweepQueue(q: Tasks, now: nat) returns (r: Tasks)
    requires TasksOk(q)
    ensures TasksOk(r) && Swept(q, r, now)
  {
    var tq := new TaskQueue.Holding(q);
    var n, order := tq.Sweep(now);
    r := tq.State();
  }
}
