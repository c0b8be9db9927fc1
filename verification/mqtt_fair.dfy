/** Shared groups are served fairly while their connected members stay the same, whatever else happens. */
module MqttFairness {
  import opened Common
  import opened MqttBroker
  import opened MqttRegistry
  import opened MqttShare

  /** Whom a step chooses for the group, if it is a publish that matches it. */
  ghost function ChosenBy(b: Registry, s: Step, g: GroupKey): seq<Client> {
    if s.DoPublish? && g in Select(b, s.topic).shared then [Select(b, s.topic).shared[g]] else []
  }

  /** Everyone chosen for the group over a run from `b`, in order. */
  ghost function Selections(b: Registry, more: seq<Step>, g: GroupKey): seq<Client>
    decreases |more|
  {
    if more == [] then [] else ChosenBy(b, more[0], g) + Selections(Next(b, more[0]), more[1..], g)
  }

  ghost predicate GroupIs(b: Registry, g: GroupKey, members: seq<Client>, online: set<Client>) {
    g in b.groups && b.groups[g].members == members && Present(members, b.clients) == online
  }

  /** In every state of a run from `b` the group has these members and these of them connected. */
  ghost predicate Steady(b: Registry, more: seq<Step>, g: GroupKey, members: seq<Client>, online: set<Client>)
    decreases |more|
  {
    GroupIs(b, g, members, online) && (more == [] || Steady(Next(b, more[0]), more[1..], g, members, online))
  }

  // --- steps that are not publishes --------------------------------------

  predicate Shrunk(a: Group, z: Group) { z == a || |z.members| < |a.members| }

  lemma LeaveShrinks(groups: map<GroupKey, Group>, h: GroupKey, c: Client, g: GroupKey)
    requires g in groups
    ensures g in Leave(groups, h, c) && Shrunk(groups[g], Leave(groups, h, c)[g])
  {
  }

  lemma {:induction false} DropKeysShrinks(b: Registry, c: Client, order: seq<Key>, g: GroupKey)
    requires g in b.groups
    ensures g in DropKeys(b, c, order).groups && Shrunk(b.groups[g], DropKeys(b, c, order).groups[g])
    decreases |order|
  {
    if order != [] {
      var front, k := order[..|order| - 1], order[|order| - 1];
      DropKeysShrinks(b, c, front, g);
      var f := if |c| < |k| then k[|c| + 1..] else [];
      if ParseShared(f).Some? {
        LeaveShrinks(DropKeys(b, c, front).groups, ParseShared(f).value, c, g);
      }
    }
  }

  /** A step other than a publish that leaves the members as they were leaves the group as it was. */
  lemma GroupKept(b: Registry, s: Step, g: GroupKey)
    requires g in b.groups && g in Next(b, s).groups && !s.DoPublish?
    requires Next(b, s).groups[g].members == b.groups[g].members
    ensures Next(b, s).groups[g] == b.groups[g]
  {
    if Enabled(b, s) {
      match s
      case DoConnect(c, clean, order) =>
        if clean {
          DropKeysShrinks(b, c, order, g);
        }
      case DoDisconnect(c, order) => DropKeysShrinks(b, c, order, g);
      case DoSubscribe(c, f, st) =>
      case DoUnsubscribe(c, f) =>
        if ParseShared(f).Some? {
          LeaveShrinks(b.groups, ParseShared(f).value, c, g);
        }
    }
  }

  // --- one step ----------------------------------------------------------

  ghost function QueueIn(b: Registry, g: GroupKey): seq<Client> {
    if g in b.groups then Queue(b.groups[g], b.clients) else []
  }

  /** One step: either nobody is chosen and the queue stays, or its head is chosen and goes to the end. */
  ghost predicate Serves(q: seq<Client>, chosen: seq<Client>, next: seq<Client>) {
    if chosen == [] then next == q else q != [] && chosen == [q[0]] && next == Rotated(q)
  }

  lemma PublishServes(b: Registry, topic: TopicMatch.Text, g: GroupKey)
    requires g in b.groups && WellKept(b.groups[g]) && QueueIn(b, g) != []
    ensures Serves(QueueIn(b, g), ChosenBy(b, DoPublish(topic), g), QueueIn(MqttShare.Publish(b, topic), g))
  {
    QueueServed(b.groups[g], b.clients);
  }

  lemma StepServes(b: Registry, s: Step, g: GroupKey, members: seq<Client>, online: set<Client>)
    requires Inv(b) && GroupIs(b, g, members, online) && GroupIs(Next(b, s), g, members, online) && QueueIn(b, g) != []
    ensures Serves(QueueIn(b, g), ChosenBy(b, s, g), QueueIn(Next(b, s), g))
  {
    if s.DoPublish? {
      assert GroupsOk(b);
      PublishServes(b, s.topic, g);
    } else {
      GroupKept(b, s, g);
      QueueSame(b.groups[g], b.clients, Next(b, s).clients);
    }
  }

  // --- runs --------------------------------------------------------------

  /** The choices are the queue going round. */
  ghost predicate GoesRound(q: seq<Client>, chosen: seq<Client>) {
    q != [] && chosen == Cycle(q, |chosen|)
  }

  lemma RoundMore(q: seq<Client>, chosen: seq<Client>, next: seq<Client>, rest: seq<Client>)
    requires q != [] && Serves(q, chosen, next) && GoesRound(next, rest)
    ensures GoesRound(q, chosen + rest)
  {
    if chosen == [] {
      assert chosen + rest == rest;
    } else {
      assert |chosen + rest| == |rest| + 1;
    }
  }

  lemma {:induction false} SelectionsGoRound(b: Registry, more: seq<Step>, g: GroupKey, members: seq<Client>, online: set<Client>)
    requires Inv(b) && Steady(b, more, g, members, online) && QueueIn(b, g) != []
    ensures GoesRound(QueueIn(b, g), Selections(b, more, g))
    decreases |more|
  {
    if more != [] {
      var next := Next(b, more[0]);
      StepServes(b, more[0], g, members, online);
      NextInv(b, more[0]);
      SelectionsGoRound(next, more[1..], g, members, online);
      RoundMore(QueueIn(b, g), ChosenBy(b, more[0], g), QueueIn(next, g), Selections(next, more[1..], g));
    }
  }

  /**
   * From any reachable state, over any further steps during which a group's members and those of
   * them connected stay the same: of the `k` choices made for the group each of its `n` connected
   * members gets `k / n`, rounded down or up.
   */
  lemma SharedFairly(steps: seq<Step>, more: seq<Step>, g: GroupKey, members: seq<Client>, online: set<Client>, c: Client)
    requires Steady(Run(steps), more, g, members, online) && c in online
    ensures var chosen := Selections(Run(steps), more, g);
      Even(Occurrences(chosen, c), |chosen|, |online|)
  {
    var b := Run(steps);
    RegistryAgrees(steps);
    assert GroupsOk(b);
    QueueIs(b.groups[g], b.clients);
    assert c in QueueIn(b, g);
    SelectionsGoRound(b, more, g, members, online);
    FairCycle(QueueIn(b, g), |Selections(b, more, g)|, c);
  }
}
