/** What the leasing protocol promises, over every run from an empty manager. */
module TaskRuns {
  import opened Common
  import opened TaskQueues
  import opened TaskLeases

  ghost function Reach(now: nat, steps: seq<Step>): World { Run(Start(now), steps) }

  lemma ReachInv(now: nat, steps: seq<Step>)
    ensures Inv(Reach(now, steps))
  {
    StartInv(now);
    RunInv(Start(now), steps);
  }

  // --- tokens ------------------------------------------------------------

  /** No token is accepted twice. */
  lemma AcceptedAtMostOnce(now: nat, steps: seq<Step>, token: Token)
    ensures AcceptCount(Reach(now, steps).answers, token) <= 1
  {
    ReachInv(now, steps);
    assert OncePerToken(Reach(now, steps));
  }

  /**
   * The answer to a response, from the history alone: accepted exactly while the token's lease
   * runs, a duplicate exactly for the time to live after it was accepted, unknown otherwise.
   */
  lemma ResponseExact(now: nat, steps: seq<Step>, token: Token, elapsed: nat)
    ensures var w := Reach(now, steps);
      var at := w.now + elapsed;
      && (ResultOf(w.m, token, at).Accepted? <==> exists task :: Leased(w.m, task, token))
      && (ResultOf(w.m, token, at).Duplicate? <==>
            AcceptedAt(w.answers, token).Some? && at < AcceptedAt(w.answers, token).value + COMPLETED_TTL)
  {
    var w := Reach(now, steps);
    ReachInv(now, steps);
    assert LeasesOk(w) && MemoryOk(w);
    if exists task :: Leased(w.m, task, token) {
      var task :| Leased(w.m, task, token);
      assert LeasedAs(w.m.queues[w.m.tokenIndex[token]], task.seqNo, token);
    }
    if LeaseOf(w.m, token).Some? {
      assert Leased(w.m, LeaseOf(w.m, token).value, token);
    }
  }

  /** A response that is not accepted changes no queue and no routing of tokens. */
  lemma RefusedChangesNothing(m: Manager, token: Token, failed: bool, now: nat)
    requires !ResultOf(m, token, now).Accepted?
    ensures Respond(m, token, failed, now).queues == m.queues
    ensures Respond(m, token, failed, now).tokenIndex == m.tokenIndex
    ensures forall t :: t in Respond(m, token, failed, now).completed ==>
      t in m.completed && Respond(m, token, failed, now).completed[t] == m.completed[t]
  {
  }

  lemma {:induction false} SweptGrows(w: World, steps: seq<Step>)
    ensures w.swept <= Run(w, steps).swept
  {
    if steps != [] {
      SweptGrows(w, steps[..|steps| - 1]);
    }
  }

  lemma {:induction false} RunConcat(w: World, a: seq<Step>, b: seq<Step>)
    ensures Run(w, a + b) == Run(Run(w, a), b)
    decreases |b|
  {
    if b == [] {
      assert a + b == a;
    } else {
      RunConcat(w, a, b[..|b| - 1]);
      assert (a + b)[..|a + b| - 1] == a + b[..|b| - 1];
    }
  }

  /** A token whose lease was swept is unknown from then on, whatever happens later. */
  lemma SweptStaysUnknown(now: nat, steps: seq<Step>, more: seq<Step>, token: Token, elapsed: nat)
    requires token in Reach(now, steps).swept
    ensures var w := Reach(now, steps + more); ResultOf(w.m, token, w.now + elapsed).Unknown?
  {
    var w := Reach(now, steps + more);
    RunConcat(Start(now), steps, more);
    SweptGrows(Reach(now, steps), more);
    ReachInv(now, steps + more);
    ResponseExact(now, steps + more, token, elapsed);
    assert SweptOk(w) && LeasesOk(w);
  }

  // --- tasks -------------------------------------------------------------

  lemma {:induction false} FinishedHas(answers: seq<Answer>, i: nat, task: Task)
    requires i < |answers| && Completes(answers[i], task)
    ensures task.seqNo in FinishedIn(answers, task.key)
  {
    if i < |answers| - 1 {
      FinishedHas(answers[..|answers| - 1], i, task);
    }
  }

  lemma {:induction false} FinishedTwice(answers: seq<Answer>, i: nat, j: nat, task: Task)
    requires i < j < |answers| && Completes(answers[i], task) && Completes(answers[j], task)
    ensures !Distinct(FinishedIn(answers, task.key))
  {
    var front := answers[..|answers| - 1];
    var before, all := FinishedIn(front, task.key), FinishedIn(answers, task.key);
    if j == |answers| - 1 {
      FinishedHas(front, i, task);
      var k :| 0 <= k < |before| && before[k] == task.seqNo;
      assert all[k] == all[|before|];
    } else {
      FinishedTwice(front, i, j, task);
      var a, b :| 0 <= a < b < |before| && before[a] == before[b];
      assert all[a] == all[b];
    }
  }

  /** An accepted answer carries the task its token was handed out for. */
  ghost predicate AnswersOk(w: World) {
    forall i :: 0 <= i < |w.answers| && w.answers[i].result.Accepted? ==>
      w.answers[i].task.Some? && TaskOf(w.deliveries, w.answers[i].token) == w.answers[i].task
  }

  /** Every delivery hands over the payload the task was added with, and counts its own dispatches. */
  ghost predicate DeliveryOk(w: World, i: nat)
    requires i < |w.deliveries|
  {
    var d := w.deliveries[i];
    && d.task.seqNo < |AddedTo(w.adds, d.task.key)| && d.payload == AddedTo(w.adds, d.task.key)[d.task.seqNo]
    && d.attempt == Occurrences(DispatchedFrom(w.deliveries[..i + 1], d.task.key), d.task.seqNo)
  }

  lemma DeliveryKept(w: World, v: World, i: nat)
    requires i < |w.deliveries| && DeliveryOk(w, i)
    requires w.deliveries <= v.deliveries
    requires AddedTo(w.adds, w.deliveries[i].task.key) <= AddedTo(v.adds, w.deliveries[i].task.key)
    ensures DeliveryOk(v, i)
  {
    assert v.deliveries[..i + 1] == w.deliveries[..i + 1];
  }

  lemma TakeDelivers(w: World, key: Key, token: Token)
    requires QueuesOk(w) && Enabled(w, DoTake(key, token))
    ensures DeliveryOk(Act(w, DoTake(key, token)), |w.deliveries|)
  {
    var v, q := Act(w, DoTake(key, token)), w.m.queues[key];
    var s := q.inner.ready[0].seqNo;
    assert KeyOk(w.m, key, HistoryOf(w, key));
    assert s == Numbers(q.inner.ready)[0];
    DeliverySnoc(w.deliveries, v.deliveries[|w.deliveries|], key);
    OccurrencesSnoc(DispatchedFrom(w.deliveries, key), s, s);
    assert v.deliveries[..|w.deliveries| + 1] == v.deliveries;
  }

  lemma AddsGrow(w: World, step: Step, key: Key)
    ensures AddedTo(w.adds, key) <= AddedTo(Next(w, step).adds, key)
    ensures w.deliveries <= Next(w, step).deliveries
  {
    assert w.adds + [] == w.adds;
    if step.action.DoAdd? && step.action.payload != [] {
      AddSnoc(w.adds, Addition(step.action.key, step.action.payload), key);
    }
  }

  lemma NewDelivery(w: World, step: Step, i: nat)
    requires QueuesOk(w) && |w.deliveries| <= i < |Next(w, step).deliveries|
    ensures DeliveryOk(Next(w, step), i)
  {
    var later := w.(now := w.now + step.elapsed);
    forall key ensures HistoryOf(later, key) == HistoryOf(w, key) {
    }
    TakeDelivers(later, step.action.key, step.action.token);
  }

  lemma {:induction false} DeliveriesOk(now: nat, steps: seq<Step>, i: nat)
    requires i < |Reach(now, steps).deliveries|
    ensures DeliveryOk(Reach(now, steps), i)
  {
    if steps != [] {
      var before, step := Reach(now, steps[..|steps| - 1]), steps[|steps| - 1];
      if i < |before.deliveries| {
        DeliveriesOk(now, steps[..|steps| - 1], i);
        AddsGrow(before, step, before.deliveries[i].task.key);
        DeliveryKept(before, Reach(now, steps), i);
      } else {
        ReachInv(now, steps[..|steps| - 1]);
        NewDelivery(before, step, i);
      }
    }
  }

  lemma RespondAnswersOk(w: World, token: Token, failed: bool)
    requires AnswersOk(w) && LeasesOk(w)
    ensures AnswersOk(Act(w, DoRespond(token, failed)))
  {
    if ResultOf(w.m, token, w.now).Accepted? {
      assert Leased(w.m, LeaseOf(w.m, token).value, token);
    }
  }

  lemma TakeAnswersOk(w: World, key: Key, token: Token)
    requires AnswersOk(w) && Enabled(w, DoTake(key, token))
    ensures AnswersOk(Act(w, DoTake(key, token)))
  {
    var v := Act(w, DoTake(key, token));
    forall i | 0 <= i < |w.answers| && w.answers[i].result.Accepted?
      ensures TaskOf(v.deliveries, w.answers[i].token) == w.answers[i].task
    {
      TaskSnoc(w.deliveries, v.deliveries[|w.deliveries|], w.answers[i].token);
    }
  }

  lemma NextAnswersOk(w: World, step: Step)
    requires AnswersOk(w) && LeasesOk(w)
    ensures AnswersOk(Next(w, step))
  {
    var later := w.(now := w.now + step.elapsed);
    assert LeasesOk(later);
    if Enabled(later, step.action) {
      match step.action
      case DoTake(key, token) => TakeAnswersOk(later, key, token);
      case DoRespond(token, failed) => RespondAnswersOk(later, token, failed);
      case _ =>
    }
  }

  lemma ReachLeases(now: nat, steps: seq<Step>)
    ensures LeasesOk(Reach(now, steps))
  {
    ReachInv(now, steps);
  }

  lemma {:induction false} AllAnswersOk(now: nat, steps: seq<Step>)
    ensures AnswersOk(Reach(now, steps))
  {
    if steps != [] {
      var front := steps[..|steps| - 1];
      AllAnswersOk(now, front);
      ReachLeases(now, front);
      NextAnswersOk(Reach(now, front), steps[|steps| - 1]);
    }
  }

  lemma FinishedOnce(now: nat, steps: seq<Step>, key: Key)
    ensures Distinct(FinishedIn(Reach(now, steps).answers, key))
  {
    var w := Reach(now, steps);
    ReachInv(now, steps);
    assert KeyOk(w.m, key, HistoryOf(w, key));
  }

  /** No task is completed twice, even under different tokens. */
  lemma CompletedAtMostOnce(now: nat, steps: seq<Step>, i: nat, j: nat)
    requires var answers := Reach(now, steps).answers;
      && i < j < |answers| && answers[i].result.Accepted? && answers[j].result.Accepted?
      && !answers[i].failed && !answers[j].failed
    ensures var w := Reach(now, steps);
      TaskOf(w.deliveries, w.answers[i].token) != TaskOf(w.deliveries, w.answers[j].token)
  {
    var w := Reach(now, steps);
    AllAnswersOk(now, steps);
    if w.answers[i].task == w.answers[j].task {
      var task := w.answers[i].task.value;
      FinishedOnce(now, steps, task.key);
      FinishedTwice(w.answers, i, j, task);
    }
  }

  /**
   * Every task ever added is in exactly one place: ready, leased or completed. A queue's leases
   * are the entries its FIFO holds in flight.
   */
  lemma TaskInOnePlace(now: nat, steps: seq<Step>, key: Key, s: nat)
    requires s < |AddedTo(Reach(now, steps).adds, key)|
    ensures var w := Reach(now, steps);
      && key in w.m.queues && w.m.queues[key].leases.Keys == w.m.queues[key].inner.inflight.Keys
      && var ready, leased, done :=
           Occurrences(Numbers(w.m.queues[key].inner.ready), s),
           (if s in w.m.queues[key].leases then 1 else 0),
           Occurrences(FinishedIn(w.answers, key), s);
         ready + leased + done == 1
  {
    var w := Reach(now, steps);
    ReachInv(now, steps);
    assert KeyOk(w.m, key, HistoryOf(w, key));
    var q := w.m.queues[key];
    DistinctOccurs(Numbers(q.inner.ready), s);
    DistinctOccurs(FinishedIn(w.answers, key), s);
  }

  /** A task still to be done is counted: the next delivery's attempt number is one more than its deliveries so far. */
  lemma AttemptsAreDispatches(now: nat, steps: seq<Step>, key: Key, s: nat)
    requires var w := Reach(now, steps); key in w.m.queues && s !in FinishedIn(w.answers, key)
    ensures var w := Reach(now, steps); Attempts(w.m.queues[key], s) == Occurrences(DispatchedFrom(w.deliveries, key), s)
  {
    var w := Reach(now, steps);
    ReachInv(now, steps);
    assert KeyOk(w.m, key, HistoryOf(w, key));
  }

  /** First deliveries happen in the order tasks were added, whatever was refused or swept in between. */
  lemma FirstDeliveriesInOrder(now: nat, steps: seq<Step>, key: Key)
    ensures var firsts := Firsts(DispatchedFrom(Reach(now, steps).deliveries, key));
      firsts == Upto(|firsts|) && |firsts| <= |AddedTo(Reach(now, steps).adds, key)|
  {
    var w := Reach(now, steps);
    ReachInv(now, steps);
    assert KeyOk(w.m, key, HistoryOf(w, key));
    assert Upto(0) == [];
  }
}
