/**
 * The manager of all routed task queues, over whole runs: tasks are added and taken, leases are
 * answered or swept when they expire, and answers are remembered for a while.
 */
module TaskLeases {
  import opened Common
  import opened TaskQueues

  type Key = seq<byte>

  /** Nanoseconds, like the source's durations. */
  const COMPLETED_TTL: nat := 600_000_000_000
  const DEFAULT_VISIBILITY: nat := 30_000_000_000

  datatype AckResult = Accepted | Duplicate | Unknown
  datatype Task = Task(key: Key, seqNo: nat)

  datatype Manager = Manager(queues: map<Key, Tasks>, tokenIndex: map<Token, Key>, completed: map<Token, nat>)

  const NEW_MANAGER := Manager(map[], map[], map[])

  // --- operations --------------------------------------------------------

  function QueueOf(m: Manager, key: Key): Tasks {
    if key in m.queues then m.queues[key] else NewTasks(DEFAULT_VISIBILITY)
  }

  /** Creating a queue can be refused by the tenant's quota. */
  predicate CanOpen(m: Manager, key: Key, room: bool) { key in m.queues || room }

  function Visible(q: Tasks, vis: Option<nat>): Tasks {
    match vis
    case None => q
    case Some(d) => q.(visibility := d)
  }

  function Open(m: Manager, key: Key, vis: Option<nat>): Manager {
    m.(queues := m.queues[key := Visible(QueueOf(m, key), vis)])
  }

  function Add(m: Manager, key: Key, payload: Payload, vis: Option<nat>): Manager {
    m.(queues := m.queues[key := Enqueued(Visible(QueueOf(m, key), vis), payload)])
  }

  predicate HasReady(m: Manager, key: Key) { key in m.queues && m.queues[key].inner.ready != [] }

  function Take(m: Manager, key: Key, token: Token, now: nat): Manager
    requires HasReady(m, key)
  {
    m.(queues := m.queues[key := Dispatch(m.queues[key], token, now)], tokenIndex := m.tokenIndex[token := key])
  }

  function Pruned(completed: map<Token, nat>, now: nat): map<Token, nat> {
    map t | t in completed && now < completed[t] + COMPLETED_TTL :: completed[t]
  }

  /** The task whose lease the token names, found through the token index. */
  ghost function LeaseOf(m: Manager, token: Token): Option<Task> {
    if token in m.tokenIndex && m.tokenIndex[token] in m.queues
       && exists s :: LeasedAs(m.queues[m.tokenIndex[token]], s, token)
    then
      var key := m.tokenIndex[token];
      var s :| LeasedAs(m.queues[key], s, token);
      Some(Task(key, s))
    else None
  }

  ghost function ResultOf(m: Manager, token: Token, now: nat): AckResult {
    if token in Pruned(m.completed, now) then Duplicate
    else if LeaseOf(m, token).Some? then Accepted else Unknown
  }

  function Settle(q: Tasks, s: nat, failed: bool): Tasks {
    if failed then Release(q, s) else Finish(q, s)
  }

  ghost function Respond(m: Manager, token: Token, failed: bool, now: nat): Manager {
    var kept := m.(completed := Pruned(m.completed, now));
    if ResultOf(m, token, now).Accepted? then
      var task := LeaseOf(m, token).value;
      Manager(m.queues[task.key := Settle(m.queues[task.key], task.seqNo, failed)],
              m.tokenIndex - {token}, kept.completed[token := now])
    else kept
  }

  function Sweep(m: Manager, key: Key, order: seq<nat>): Manager
    requires key in m.queues
  {
    m.(queues := m.queues[key := ReleaseAll(m.queues[key], order)])
  }

  // --- runs --------------------------------------------------------------

  datatype Addition = Addition(key: Key, payload: Payload)
  datatype Delivery = Delivery(task: Task, token: Token, payload: Payload, attempt: nat)
  datatype Answer = Answer(token: Token, failed: bool, result: AckResult, at: nat, task: Option<Task>)

  /** The manager, the clock, and everything that happened so far. */
  datatype World = World(m: Manager, now: nat, adds: seq<Addition>, deliveries: seq<Delivery>,
                         answers: seq<Answer>, swept: set<Token>)

  datatype Action =
    | DoOpen(key: Key, vis: Option<nat>, room: bool)
    | DoAdd(key: Key, payload: Payload, vis: Option<nat>, room: bool)
    | DoTake(key: Key, token: Token)
    | DoRespond(token: Token, failed: bool)
    | DoSweep(key: Key, order: seq<nat>)

  /** The clock advances by any amount before each action. */
  datatype Step = Step(elapsed: nat, action: Action)

  function Start(now: nat): World { World(NEW_MANAGER, now, [], [], [], {}) }

  function TaskOf(ds: seq<Delivery>, token: Token): Option<Task> {
    if ds == [] then None
    else if ds[|ds| - 1].token == token then Some(ds[|ds| - 1].task)
    else TaskOf(ds[..|ds| - 1], token)
  }

  /** Tokens are fresh, and a sweep finds exactly the expired leases, in any order. */
  ghost predicate Enabled(w: World, a: Action) {
    match a
    case DoOpen(key, _, room) => CanOpen(w.m, key, room)
    case DoAdd(key, _, _, room) => CanOpen(w.m, key, room)
    case DoTake(key, token) => HasReady(w.m, key) && TaskOf(w.deliveries, token).None?
    case DoRespond(_, _) => true
    case DoSweep(key, order) => key in w.m.queues && SweepOrder(w.m.queues[key], w.now, order)
  }

  function TokensOf(q: Tasks, order: seq<nat>): set<Token> {
    set s | s in order && s in q.leases :: q.leases[s].token
  }

  ghost function Act(w: World, a: Action): World
    requires Enabled(w, a)
  {
    match a
    case DoOpen(key, vis, _) => w.(m := Open(w.m, key, vis))
    case DoAdd(key, payload, vis, _) =>
      w.(m := Add(w.m, key, payload, vis), adds := w.adds + (if payload == [] then [] else [Addition(key, payload)]))
    case DoTake(key, token) =>
      var q := w.m.queues[key];
      var e := q.inner.ready[0];
      w.(m := Take(w.m, key, token, w.now),
         deliveries := w.deliveries + [Delivery(Task(key, e.seqNo), token, e.payload, Attempts(q, e.seqNo) + 1)])
    case DoRespond(token, failed) =>
      w.(m := Respond(w.m, token, failed, w.now),
         answers := w.answers + [Answer(token, failed, ResultOf(w.m, token, w.now), w.now, LeaseOf(w.m, token))])
    case DoSweep(key, order) =>
      w.(m := Sweep(w.m, key, order), swept := w.swept + TokensOf(w.m.queues[key], order))
  }

  ghost function Next(w: World, s: Step): World {
    var later := w.(now := w.now + s.elapsed);
    if Enabled(later, s.action) then Act(later, s.action) else later
  }

  ghost function Run(w: World, steps: seq<Step>): World {
    if steps == [] then w else Next(Run(w, steps[..|steps| - 1]), steps[|steps| - 1])
  }

  // --- what happened to one queue, one token, one task -------------------

  function AddedTo(adds: seq<Addition>, key: Key): seq<Payload> {
    if adds == [] then []
    else
      var last := adds[|adds| - 1];
      AddedTo(adds[..|adds| - 1], key) + (if last.key == key then [last.payload] else [])
  }

  function DispatchedFrom(ds: seq<Delivery>, key: Key): seq<nat> {
    if ds == [] then []
    else
      var last := ds[|ds| - 1];
      DispatchedFrom(ds[..|ds| - 1], key) + (if last.task.key == key then [last.task.seqNo] else [])
  }

  predicate Completes(a: Answer, task: Task) { a.result.Accepted? && !a.failed && a.task == Some(task) }

  function FinishedIn(answers: seq<Answer>, key: Key): seq<nat> {
    if answers == [] then []
    else
      var last := answers[|answers| - 1];
      FinishedIn(answers[..|answers| - 1], key) +
      (if last.task.Some? && Completes(last, last.task.value) && last.task.value.key == key then [last.task.value.seqNo] else [])
  }

  function HistoryOf(w: World, key: Key): History {
    History(AddedTo(w.adds, key), DispatchedFrom(w.deliveries, key), FinishedIn(w.answers, key))
  }

  /** How often, and when last, a token was accepted. */
  function AcceptCount(answers: seq<Answer>, token: Token): nat {
    if answers == [] then 0
    else
      var last := answers[|answers| - 1];
      AcceptCount(answers[..|answers| - 1], token) + (if last.token == token && last.result.Accepted? then 1 else 0)
  }

  function AcceptedAt(answers: seq<Answer>, token: Token): Option<nat> {
    if answers == [] then None
    else
      var last := answers[|answers| - 1];
      if last.token == token && last.result.Accepted? then Some(last.at) else AcceptedAt(answers[..|answers| - 1], token)
  }

  lemma AddSnoc(adds: seq<Addition>, a: Addition, key: Key)
    ensures AddedTo(adds + [a], key) == AddedTo(adds, key) + (if a.key == key then [a.payload] else [])
  {
    assert (adds + [a])[..|adds|] == adds;
  }

  lemma DeliverySnoc(ds: seq<Delivery>, d: Delivery, key: Key)
    ensures DispatchedFrom(ds + [d], key) == DispatchedFrom(ds, key) + (if d.task.key == key then [d.task.seqNo] else [])
  {
    assert (ds + [d])[..|ds|] == ds;
  }

  lemma TaskSnoc(ds: seq<Delivery>, d: Delivery, token: Token)
    ensures TaskOf(ds + [d], token) == if d.token == token then Some(d.task) else TaskOf(ds, token)
  {
    assert (ds + [d])[..|ds|] == ds;
  }

  lemma AnswerSnoc(answers: seq<Answer>, a: Answer, key: Key)
    ensures FinishedIn(answers + [a], key) == FinishedIn(answers, key) +
      (if a.task.Some? && Completes(a, a.task.value) && a.task.value.key == key then [a.task.value.seqNo] else [])
  {
    assert (answers + [a])[..|answers|] == answers;
  }

  lemma AcceptSnoc(answers: seq<Answer>, a: Answer, token: Token)
    ensures var hit := a.token == token && a.result.Accepted?;
      && AcceptCount(answers + [a], token) == AcceptCount(answers, token) + (if hit then 1 else 0)
      && AcceptedAt(answers + [a], token) == if hit then Some(a.at) else AcceptedAt(answers, token)
  {
    assert (answers + [a])[..|answers|] == answers;
  }

  // --- invariant ---------------------------------------------------------

  predicate Leased(m: Manager, task: Task, token: Token) {
    task.key in m.queues && LeasedAs(m.queues[task.key], task.seqNo, token)
  }

  const NO_HISTORY := History([], [], [])

  ghost predicate KeyOk(m: Manager, key: Key, h: History) {
    if key in m.queues then QueueInv(m.queues[key], h) else h == NO_HISTORY
  }

  ghost predicate QueuesOk(w: World) {
    forall key :: KeyOk(w.m, key, HistoryOf(w, key))
  }

  /** A leased token was handed out for that very task, is routed to its queue, and has no answer yet. */
  ghost predicate LeasesOk(w: World) {
    forall task, token :: Leased(w.m, task, token) ==>
      && TaskOf(w.deliveries, token) == Some(task)
      && token in w.m.tokenIndex && w.m.tokenIndex[token] == task.key
      && AcceptedAt(w.answers, token).None? && token !in w.swept
  }

  ghost predicate SweptOk(w: World) {
    forall token :: token in w.swept ==> TaskOf(w.deliveries, token).Some? && AcceptedAt(w.answers, token).None?
  }

  /** Every token handed out is leased, swept or accepted. */
  ghost predicate Accounted(w: World) {
    forall token :: TaskOf(w.deliveries, token).Some? ==>
      Leased(w.m, TaskOf(w.deliveries, token).value, token) || token in w.swept || AcceptedAt(w.answers, token).Some?
  }

  /** The memory of accepted tokens is exact for as long as the time to live. */
  ghost predicate MemoryOk(w: World) {
    && (forall token :: AcceptedAt(w.answers, token).Some? ==>
      var at := AcceptedAt(w.answers, token).value;
      at <= w.now && TaskOf(w.deliveries, token).Some? && (token in w.m.completed || at + COMPLETED_TTL <= w.now))
    && (forall token :: token in w.m.completed ==> AcceptedAt(w.answers, token) == Some(w.m.completed[token]))
  }

  ghost predicate OncePerToken(w: World) {
    forall token :: AcceptCount(w.answers, token) == if AcceptedAt(w.answers, token).Some? then 1 else 0
  }

  ghost predicate Inv(w: World) {
    QueuesOk(w) && LeasesOk(w) && SweptOk(w) && Accounted(w) && MemoryOk(w) && OncePerToken(w)
  }

  lemma StartInv(now: nat)
    ensures Inv(Start(now))
  {
  }

  lemma TickInv(w: World, elapsed: nat)
    requires Inv(w)
    ensures Inv(w.(now := w.now + elapsed))
  {
    var v := w.(now := w.now + elapsed);
    forall key: Key ensures HistoryOf(v, key) == HistoryOf(w, key) {
    }
  }

  // --- opening and adding ------------------------------------------------

  lemma AddHistory(w: World, key: Key, payload: Payload, vis: Option<nat>, k: Key)
    requires KeyOk(w.m, k, HistoryOf(w, k))
    ensures var v := w.(m := Add(w.m, key, payload, vis),
                        adds := w.adds + (if payload == [] then [] else [Addition(key, payload)]));
      KeyOk(v.m, k, HistoryOf(v, k))
  {
    var v := w.(m := Add(w.m, key, payload, vis),
                adds := w.adds + (if payload == [] then [] else [Addition(key, payload)]));
    var h := HistoryOf(w, k);
    if payload != [] {
      AddSnoc(w.adds, Addition(key, payload), k);
    } else {
      assert w.adds + [] == w.adds;
    }
    if k == key {
      var q := QueueOf(w.m, key);
      assert HistoryOf(v, k) == if payload == [] then h else h.(added := h.added + [payload]);
      FreshQueue(DEFAULT_VISIBILITY);
      VisibleInv(q, vis, h);
      EnqueueInv(Visible(q, vis), payload, h);
    } else {
      assert HistoryOf(v, k) == h;
    }
  }

  lemma VisibleInv(q: Tasks, vis: Option<nat>, h: History)
    requires QueueInv(q, h)
    ensures QueueInv(Visible(q, vis), h)
  {
  }

  lemma AddInv(w: World, key: Key, payload: Payload, vis: Option<nat>)
    requires Inv(w)
    ensures Inv(w.(m := Add(w.m, key, payload, vis),
                   adds := w.adds + (if payload == [] then [] else [Addition(key, payload)])))
  {
    var v := w.(m := Add(w.m, key, payload, vis),
                adds := w.adds + (if payload == [] then [] else [Addition(key, payload)]));
    forall k ensures KeyOk(v.m, k, HistoryOf(v, k)) {
      AddHistory(w, key, payload, vis, k);
    }
    SameLeases(w, v);
  }

  /** Steps that touch no lease and no token keep what is known about tokens. */
  lemma SameLeases(w: World, v: World)
    requires LeasesOk(w) && SweptOk(w) && Accounted(w) && MemoryOk(w) && OncePerToken(w)
    requires v.m.tokenIndex == w.m.tokenIndex && v.m.completed == w.m.completed && v.now == w.now
    requires v.deliveries == w.deliveries && v.answers == w.answers && v.swept == w.swept
    requires forall task, token :: Leased(v.m, task, token) <==> Leased(w.m, task, token)
    ensures LeasesOk(v) && SweptOk(v) && Accounted(v) && MemoryOk(v) && OncePerToken(v)
  {
  }

  lemma OpenInv(w: World, key: Key, vis: Option<nat>)
    requires Inv(w)
    ensures Inv(w.(m := Open(w.m, key, vis)))
  {
    AddInv(w, key, [], vis);
    assert w.adds + [] == w.adds;
    assert Enqueued(Visible(QueueOf(w.m, key), vis), []) == Visible(QueueOf(w.m, key), vis);
  }

  // --- taking ------------------------------------------------------------

  lemma TakeInv(w: World, key: Key, token: Token)
    requires Inv(w) && Enabled(w, DoTake(key, token))
    ensures Inv(Act(w, DoTake(key, token)))
  {
    var v := Act(w, DoTake(key, token));
    forall k ensures KeyOk(v.m, k, HistoryOf(v, k)) {
      TakeHistory(w, key, token, k);
    }
    TakeTokens(w, key, token);
  }

  function DispatchedNow(h: History, s: nat): History { h.(dispatched := h.dispatched + [s]) }

  lemma TakenFromHere(m: Manager, key: Key, token: Token, now: nat, h: History)
    requires HasReady(m, key) && KeyOk(m, key, h)
    ensures KeyOk(Take(m, key, token, now), key, DispatchedNow(h, m.queues[key].inner.ready[0].seqNo))
  {
    DispatchInv(m.queues[key], token, now, h);
  }

  lemma TakenElsewhere(m: Manager, key: Key, token: Token, now: nat, k: Key, h: History)
    requires HasReady(m, key) && k != key && KeyOk(m, k, h)
    ensures KeyOk(Take(m, key, token, now), k, h)
  {
  }

  lemma HistoryTaken(w: World, key: Key, token: Token, k: Key)
    requires Enabled(w, DoTake(key, token))
    ensures var h := HistoryOf(w, k);
      HistoryOf(Act(w, DoTake(key, token)), k) == if k == key then DispatchedNow(h, w.m.queues[key].inner.ready[0].seqNo) else h
  {
    var v := Act(w, DoTake(key, token));
    DeliverySnoc(w.deliveries, v.deliveries[|w.deliveries|], k);
    assert DispatchedFrom(w.deliveries, k) + [] == DispatchedFrom(w.deliveries, k);
  }

  lemma TakeHistory(w: World, key: Key, token: Token, k: Key)
    requires KeyOk(w.m, k, HistoryOf(w, k)) && Enabled(w, DoTake(key, token))
    ensures KeyOk(Act(w, DoTake(key, token)).m, k, HistoryOf(Act(w, DoTake(key, token)), k))
  {
    HistoryTaken(w, key, token, k);
    if k == key {
      TakenFromHere(w.m, key, token, w.now, HistoryOf(w, k));
    } else {
      TakenElsewhere(w.m, key, token, w.now, k, HistoryOf(w, k));
    }
  }

  lemma TakeTokens(w: World, key: Key, token: Token)
    requires Inv(w) && Enabled(w, DoTake(key, token))
    ensures var v := Act(w, DoTake(key, token));
      LeasesOk(v) && SweptOk(v) && Accounted(v) && MemoryOk(v) && OncePerToken(v)
  {
    var v := Act(w, DoTake(key, token));
    var d := v.deliveries[|w.deliveries|];
    forall t ensures TaskOf(v.deliveries, t) == if t == token then Some(d.task) else TaskOf(w.deliveries, t) {
      TaskSnoc(w.deliveries, d, t);
    }
    TakenWasReady(w, key, d.task.seqNo);
    TakeLeases(w.m, key, token, w.now);
    Granted(w, v, d.task, token);
  }

  /** Taking adds exactly one lease. */
  lemma TakeLeases(m: Manager, key: Key, token: Token, now: nat)
    requires HasReady(m, key) && m.queues[key].inner.ready[0].seqNo !in m.queues[key].leases
    ensures var task := Task(key, m.queues[key].inner.ready[0].seqNo);
      forall other, t :: Leased(Take(m, key, token, now), other, t) <==> (other == task && t == token) || Leased(m, other, t)
  {
  }

  lemma Granted(w: World, v: World, task: Task, token: Token)
    requires LeasesOk(w) && SweptOk(w) && Accounted(w) && MemoryOk(w) && OncePerToken(w) && TaskOf(w.deliveries, token).None?
    requires v.m.tokenIndex == w.m.tokenIndex[token := task.key] && v.m.completed == w.m.completed && v.now == w.now
    requires v.answers == w.answers && v.swept == w.swept
    requires forall t :: TaskOf(v.deliveries, t) == if t == token then Some(task) else TaskOf(w.deliveries, t)
    requires forall other, t :: Leased(v.m, other, t) <==> (other == task && t == token) || Leased(w.m, other, t)
    ensures LeasesOk(v) && SweptOk(v) && Accounted(v) && MemoryOk(v) && OncePerToken(v)
  {
  }

  /** The entry at the front is not leased. */
  lemma TakenWasReady(w: World, key: Key, s: nat)
    requires QueuesOk(w) && HasReady(w.m, key) && s == w.m.queues[key].inner.ready[0].seqNo
    ensures s !in w.m.queues[key].leases
  {
    var q := w.m.queues[key];
    assert KeyOk(w.m, key, HistoryOf(w, key));
    assert s == Numbers(q.inner.ready)[0];
  }

  // --- answering ---------------------------------------------------------

  lemma SettleInv(q: Tasks, s: nat, failed: bool, h: History)
    requires QueueInv(q, h) && s in q.leases
    ensures QueueInv(Settle(q, s, failed), if failed then h else h.(finished := h.finished + [s]))
  {
    if failed {
      ReleaseInv(q, s, h);
    } else {
      FinishInv(q, s, h);
    }
  }

  /** What an answer leaves of one queue's history. */
  lemma RespondHistory(w: World, token: Token, failed: bool, k: Key)
    ensures var v, h := Act(w, DoRespond(token, failed)), HistoryOf(w, k);
      HistoryOf(v, k) ==
        if ResultOf(w.m, token, w.now).Accepted? && LeaseOf(w.m, token).value.key == k && !failed
        then h.(finished := h.finished + [LeaseOf(w.m, token).value.seqNo]) else h
  {
    AnswerSnoc(w.answers, Act(w, DoRespond(token, failed)).answers[|w.answers|], k);
  }

  lemma RespondKey(w: World, token: Token, failed: bool, k: Key)
    requires KeyOk(w.m, k, HistoryOf(w, k))
    ensures var v := Act(w, DoRespond(token, failed)); KeyOk(v.m, k, HistoryOf(v, k))
  {
    RespondHistory(w, token, failed, k);
    if ResultOf(w.m, token, w.now).Accepted? && LeaseOf(w.m, token).value.key == k {
      SettleInv(w.m.queues[k], LeaseOf(w.m, token).value.seqNo, failed, HistoryOf(w, k));
    }
  }

  /** An accepted answer ends exactly one lease. */
  lemma SettleLeases(w: World, token: Token, failed: bool)
    requires ResultOf(w.m, token, w.now).Accepted?
    ensures Leased(w.m, LeaseOf(w.m, token).value, token)
    ensures var v := Respond(w.m, token, failed, w.now);
      forall other, t :: Leased(v, other, t) <==> Leased(w.m, other, t) && other != LeaseOf(w.m, token).value
  {
  }

  lemma Answered(w: World, v: World, task: Task, token: Token)
    requires LeasesOk(w) && SweptOk(w) && Accounted(w) && MemoryOk(w) && OncePerToken(w) && Leased(w.m, task, token)
    requires v.m.tokenIndex == w.m.tokenIndex - {token} && v.m.completed == Pruned(w.m.completed, w.now)[token := w.now]
    requires v.now == w.now && v.deliveries == w.deliveries && v.swept == w.swept
    requires forall t :: AcceptedAt(v.answers, t) == if t == token then Some(w.now) else AcceptedAt(w.answers, t)
    requires forall t :: AcceptCount(v.answers, t) == AcceptCount(w.answers, t) + if t == token then 1 else 0
    requires forall other, t :: Leased(v.m, other, t) <==> Leased(w.m, other, t) && other != task
    ensures LeasesOk(v) && SweptOk(v) && Accounted(v) && MemoryOk(v) && OncePerToken(v)
  {
  }

  lemma Ignored(w: World, v: World)
    requires LeasesOk(w) && SweptOk(w) && Accounted(w) && MemoryOk(w) && OncePerToken(w)
    requires v.m == w.m.(completed := Pruned(w.m.completed, w.now))
    requires v.now == w.now && v.deliveries == w.deliveries && v.swept == w.swept
    requires forall t :: AcceptedAt(v.answers, t) == AcceptedAt(w.answers, t)
    requires forall t :: AcceptCount(v.answers, t) == AcceptCount(w.answers, t)
    ensures LeasesOk(v) && SweptOk(v) && Accounted(v) && MemoryOk(v) && OncePerToken(v)
  {
    assert forall other, t :: Leased(v.m, other, t) <==> Leased(w.m, other, t);
  }

  lemma RespondTokens(w: World, token: Token, failed: bool)
    requires Inv(w)
    ensures var v := Act(w, DoRespond(token, failed));
      LeasesOk(v) && SweptOk(v) && Accounted(v) && MemoryOk(v) && OncePerToken(v)
  {
    var v := Act(w, DoRespond(token, failed));
    var a := v.answers[|w.answers|];
    forall t
      ensures AcceptedAt(v.answers, t) == if a.result.Accepted? && t == token then Some(w.now) else AcceptedAt(w.answers, t)
      ensures AcceptCount(v.answers, t) == AcceptCount(w.answers, t) + if a.result.Accepted? && t == token then 1 else 0
    {
      AcceptSnoc(w.answers, a, t);
    }
    if a.result.Accepted? {
      SettleLeases(w, token, failed);
      Answered(w, v, a.task.value, token);
    } else {
      Ignored(w, v);
    }
  }

  lemma RespondInv(w: World, token: Token, failed: bool)
    requires Inv(w)
    ensures Inv(Act(w, DoRespond(token, failed)))
  {
    var v := Act(w, DoRespond(token, failed));
    forall k ensures KeyOk(v.m, k, HistoryOf(v, k)) {
      RespondKey(w, token, failed, k);
    }
    RespondTokens(w, token, failed);
  }

  // --- sweeping ----------------------------------------------------------

  lemma SweepLeases(m: Manager, key: Key, order: seq<nat>)
    requires key in m.queues
    ensures forall other, t :: Leased(Sweep(m, key, order), other, t) <==>
      Leased(m, other, t) && !(other.key == key && other.seqNo in order)
  {
    ReleaseAllLeases(m.queues[key], order);
    assert forall s :: s in Elements(order) <==> s in order;
  }

  lemma Reclaimed(w: World, v: World, key: Key, order: seq<nat>)
    requires LeasesOk(w) && SweptOk(w) && Accounted(w) && MemoryOk(w) && OncePerToken(w) && key in w.m.queues
    requires v.m.tokenIndex == w.m.tokenIndex && v.m.completed == w.m.completed && v.now == w.now
    requires v.deliveries == w.deliveries && v.answers == w.answers
    requires v.swept == w.swept + TokensOf(w.m.queues[key], order)
    requires forall other, t :: Leased(v.m, other, t) <==>
      Leased(w.m, other, t) && !(other.key == key && other.seqNo in order)
    ensures LeasesOk(v) && SweptOk(v) && Accounted(v) && MemoryOk(v) && OncePerToken(v)
  {
    forall t | t in TokensOf(w.m.queues[key], order)
      ensures exists s :: s in order && Leased(w.m, Task(key, s), t)
    {
      var s :| s in order && s in w.m.queues[key].leases && w.m.queues[key].leases[s].token == t;
      assert Leased(w.m, Task(key, s), t);
    }
  }

  lemma SweepInv(w: World, key: Key, order: seq<nat>)
    requires Inv(w) && Enabled(w, DoSweep(key, order))
    ensures Inv(Act(w, DoSweep(key, order)))
  {
    var v := Act(w, DoSweep(key, order));
    forall k ensures KeyOk(v.m, k, HistoryOf(v, k)) {
      assert HistoryOf(v, k) == HistoryOf(w, k) && KeyOk(w.m, k, HistoryOf(w, k));
      if k == key {
        ReleaseAllInv(w.m.queues[key], order, HistoryOf(w, key));
      }
    }
    SweepLeases(w.m, key, order);
    Reclaimed(w, v, key, order);
  }

  // --- whole runs --------------------------------------------------------

  lemma NextInv(w: World, step: Step)
    requires Inv(w)
    ensures Inv(Next(w, step))
  {
    TickInv(w, step.elapsed);
    var later := w.(now := w.now + step.elapsed);
    if Enabled(later, step.action) {
      match step.action
      case DoOpen(key, vis, _) => OpenInv(later, key, vis);
      case DoAdd(key, payload, vis, _) => AddInv(later, key, payload, vis);
      case DoTake(key, token) => TakeInv(later, key, token);
      case DoRespond(token, failed) => RespondInv(later, token, failed);
      case DoSweep(key, order) => SweepInv(later, key, order);
    }
  }

  lemma {:induction false} RunInv(w: World, steps: seq<Step>)
    requires Inv(w)
    ensures Inv(Run(w, steps))
  {
    if steps != [] {
      RunInv(w, steps[..|steps| - 1]);
      NextInv(Run(w, steps[..|steps| - 1]), steps[|steps| - 1]);
    }
  }
}
