/** How long a lease lasts, over whole runs. */
module TaskVisibility {
  import opened Common
  import opened TaskQueues
  import opened TaskLeases
  import opened TaskRuns

  function LeaseIn(m: Manager, task: Task): Option<Lease> {
    if task.key in m.queues && task.seqNo in m.queues[task.key].leases then Some(m.queues[task.key].leases[task.seqNo]) else None
  }

  // --- what each operation does to one lease ------------------------------

  lemma OpenLease(m: Manager, key: Key, vis: Option<nat>, task: Task)
    ensures LeaseIn(Open(m, key, vis), task) == LeaseIn(m, task)
  {
  }

  lemma AddLease(m: Manager, key: Key, payload: Payload, vis: Option<nat>, task: Task)
    ensures LeaseIn(Add(m, key, payload, vis), task) == LeaseIn(m, task)
  {
  }

  lemma TakeLease(m: Manager, key: Key, token: Token, now: nat, task: Task)
    requires HasReady(m, key)
    ensures LeaseIn(Take(m, key, token, now), task) ==
      if task == Task(key, m.queues[key].inner.ready[0].seqNo) then Some(Lease(token, now + m.queues[key].visibility))
      else LeaseIn(m, task)
  {
  }

  lemma RespondLease(m: Manager, token: Token, failed: bool, now: nat, task: Task)
    ensures LeaseIn(Respond(m, token, failed, now), task) ==
      if ResultOf(m, token, now).Accepted? && LeaseOf(m, token) == Some(task) then None else LeaseIn(m, task)
  {
  }

  lemma SweepLease(m: Manager, key: Key, now: nat, order: seq<nat>, task: Task)
    requires key in m.queues && SweepOrder(m.queues[key], now, order)
    ensures LeaseIn(Sweep(m, key, order), task) ==
      if task.key == key && LeaseIn(m, task).Some? && LeaseIn(m, task).value.expires <= now then None else LeaseIn(m, task)
  {
    ReleaseAllLeases(m.queues[key], order);
    ElementsIn(order, task.seqNo);
  }

  // --- one lease along a run ---------------------------------------------

  /** The lease given out with `token`: it keeps its deadline, and before that it goes only by being answered. */
  ghost predicate LeaseKept(w: World, task: Task, token: Token, deadline: nat) {
    var l := LeaseIn(w.m, task);
    && TaskOf(w.deliveries, token) == Some(task)
    && (l.Some? && l.value.token == token ==> l.value.expires == deadline)
    && (w.now < deadline ==> l == Some(Lease(token, deadline)) || AcceptedAt(w.answers, token).Some?)
  }

  lemma TickKeeps(w: World, elapsed: nat, task: Task, token: Token, deadline: nat)
    requires LeaseKept(w, task, token, deadline)
    ensures LeaseKept(w.(now := w.now + elapsed), task, token, deadline)
  {
  }

  lemma TakeKeeps(w: World, key: Key, other: Token, task: Task, token: Token, deadline: nat)
    requires Inv(w) && Enabled(w, DoTake(key, other)) && LeaseKept(w, task, token, deadline)
    ensures LeaseKept(Act(w, DoTake(key, other)), task, token, deadline)
  {
    var v := Act(w, DoTake(key, other));
    TakeLease(w.m, key, other, w.now, task);
    TaskSnoc(w.deliveries, v.deliveries[|w.deliveries|], token);
    TakenWasReady(w, key, w.m.queues[key].inner.ready[0].seqNo);
  }

  lemma RespondKeeps(w: World, other: Token, failed: bool, task: Task, token: Token, deadline: nat)
    requires Inv(w) && LeaseKept(w, task, token, deadline)
    ensures LeaseKept(Act(w, DoRespond(other, failed)), task, token, deadline)
  {
    var v := Act(w, DoRespond(other, failed));
    RespondLease(w.m, other, failed, w.now, task);
    AcceptSnoc(w.answers, v.answers[|w.answers|], token);
    if LeaseOf(w.m, other).Some? {
      assert LeasesOk(w) && Leased(w.m, LeaseOf(w.m, other).value, other);
    }
  }

  lemma SweepKeeps(w: World, key: Key, order: seq<nat>, task: Task, token: Token, deadline: nat)
    requires Enabled(w, DoSweep(key, order)) && LeaseKept(w, task, token, deadline)
    ensures LeaseKept(Act(w, DoSweep(key, order)), task, token, deadline)
  {
    SweepLease(w.m, key, w.now, order, task);
  }

  lemma OpenKeeps(w: World, a: Action, task: Task, token: Token, deadline: nat)
    requires a.DoOpen? && Enabled(w, a) && LeaseKept(w, task, token, deadline)
    ensures LeaseKept(Act(w, a), task, token, deadline)
  {
    OpenLease(w.m, a.key, a.vis, task);
  }

  lemma AddKeeps(w: World, a: Action, task: Task, token: Token, deadline: nat)
    requires a.DoAdd? && Enabled(w, a) && LeaseKept(w, task, token, deadline)
    ensures LeaseKept(Act(w, a), task, token, deadline)
  {
    AddLease(w.m, a.key, a.payload, a.vis, task);
  }

  lemma ActKeeps(w: World, a: Action, task: Task, token: Token, deadline: nat)
    requires Inv(w) && Enabled(w, a) && LeaseKept(w, task, token, deadline)
    ensures LeaseKept(Act(w, a), task, token, deadline)
  {
    match a
    case DoOpen(_, _, _) => OpenKeeps(w, a, task, token, deadline);
    case DoAdd(_, _, _, _) => AddKeeps(w, a, task, token, deadline);
    case DoTake(key, other) => TakeKeeps(w, key, other, task, token, deadline);
    case DoRespond(other, failed) => RespondKeeps(w, other, failed, task, token, deadline);
    case DoSweep(key, order) => SweepKeeps(w, key, order, task, token, deadline);
  }

  /** The state in which an action is taken, and where it leads. */
  lemma NextIs(w: World, s: Step) returns (later: World)
    ensures later == w.(now := w.now + s.elapsed)
    ensures Next(w, s) == if Enabled(later, s.action) then Act(later, s.action) else later
  {
    later := w.(now := w.now + s.elapsed);
  }

  lemma StepKeeps(w: World, s: Step, next: World, task: Task, token: Token, deadline: nat)
    requires Inv(w) && LeaseKept(w, task, token, deadline) && next == Next(w, s)
    ensures LeaseKept(next, task, token, deadline)
  {
    var later := NextIs(w, s);
    TickKeeps(w, s.elapsed, task, token, deadline);
    if Enabled(later, s.action) {
      TickInv(w, s.elapsed);
      ActKeeps(later, s.action, task, token, deadline);
    }
  }

  lemma {:induction false} RunKeeps(w: World, steps: seq<Step>, task: Task, token: Token, deadline: nat)
    requires Inv(w) && LeaseKept(w, task, token, deadline)
    ensures Inv(Run(w, steps)) && LeaseKept(Run(w, steps), task, token, deadline)
  {
    RunInv(w, steps);
    if steps != [] {
      var front := steps[..|steps| - 1];
      RunKeeps(w, front, task, token, deadline);
      StepKeeps(Run(w, front), steps[|steps| - 1], Run(w, steps), task, token, deadline);
    }
  }

  lemma TakenKept(w: World, key: Key, token: Token)
    requires Inv(w) && Enabled(w, DoTake(key, token))
    ensures var q := w.m.queues[key];
      LeaseKept(Act(w, DoTake(key, token)), Task(key, q.inner.ready[0].seqNo), token, w.now + q.visibility)
  {
    var v := Act(w, DoTake(key, token));
    TakeLease(w.m, key, token, w.now, Task(key, w.m.queues[key].inner.ready[0].seqNo));
    TaskSnoc(w.deliveries, v.deliveries[|w.deliveries|], token);
  }

  /**
   * From the moment a task is taken, through any further steps and until the visibility timeout then
   * in force has passed, its token is leased exactly as long as it has not been accepted.
   */
  lemma LeaseLasts(now: nat, steps: seq<Step>, key: Key, token: Token, more: seq<Step>)
    requires Enabled(Reach(now, steps), DoTake(key, token))
    ensures var w := Reach(now, steps);
      var q := w.m.queues[key];
      var v := Run(Act(w, DoTake(key, token)), more);
      v.now < w.now + q.visibility ==>
        (Leased(v.m, Task(key, q.inner.ready[0].seqNo), token) <==> AcceptedAt(v.answers, token).None?)
  {
    var w := Reach(now, steps);
    var q := w.m.queues[key];
    var start, task := Act(w, DoTake(key, token)), Task(key, q.inner.ready[0].seqNo);
    ReachInv(now, steps);
    TakeInv(w, key, token);
    TakenKept(w, key, token);
    RunKeeps(start, more, task, token, w.now + q.visibility);
    assert LeasesOk(Run(start, more));
  }

  /** Once it has passed, the next sweep of the queue takes the lease, whatever happened in between. */
  lemma LeaseEnds(now: nat, steps: seq<Step>, key: Key, token: Token, more: seq<Step>, order: seq<nat>)
    requires Enabled(Reach(now, steps), DoTake(key, token))
    requires var v := Run(Act(Reach(now, steps), DoTake(key, token)), more);
      Enabled(v, DoSweep(key, order)) && Reach(now, steps).now + Reach(now, steps).m.queues[key].visibility <= v.now
    ensures var w := Reach(now, steps);
      var v := Run(Act(w, DoTake(key, token)), more);
      !Leased(Act(v, DoSweep(key, order)).m, Task(key, w.m.queues[key].inner.ready[0].seqNo), token)
  {
    var w := Reach(now, steps);
    var q := w.m.queues[key];
    var start, task := Act(w, DoTake(key, token)), Task(key, q.inner.ready[0].seqNo);
    ReachInv(now, steps);
    TakeInv(w, key, token);
    TakenKept(w, key, token);
    RunKeeps(start, more, task, token, w.now + q.visibility);
    SweepLease(Run(start, more).m, key, Run(start, more).now, order, task);
  }
}
