/** The broker over whole runs, and as an object whose maps are updated in place. */
module MqttBroker {
  import opened Common
  import opened TopicMatch
  import opened TopicFast
  import opened TopicRouting
  import opened MqttRegistry
  import opened MqttShare

  // --- runs --------------------------------------------------------------

  datatype Step =
    | DoConnect(c: Client, clean: bool, order: seq<Key>)
    | DoDisconnect(c: Client, order: seq<Key>)
    | DoSubscribe(c: Client, f: Text, st: SubState)
    | DoUnsubscribe(c: Client, f: Text)
    | DoPublish(topic: Text)

  function Connected(b: Registry, c: Client, clean: bool, order: seq<Key>): Registry {
    var d := if clean then DropSession(b, c, order) else b;
    d.(clients := d.clients + {c})
  }

  /** Client identifiers have no NUL octet. */
  ghost predicate Enabled(b: Registry, s: Step) {
    match s
    case DoConnect(c, clean, order) => NulFree(c) && (clean ==> OwnedBy(b, c, order))
    case DoDisconnect(c, order) => NulFree(c) && OwnedBy(b, c, order)
    case DoSubscribe(c, _, _) => NulFree(c)
    case DoUnsubscribe(c, _) => NulFree(c)
    case DoPublish(_) => true
  }

  ghost function Next(b: Registry, s: Step): Registry {
    if !Enabled(b, s) then b
    else
      match s
      case DoConnect(c, clean, order) => Connected(b, c, clean, order)
      case DoDisconnect(c, order) => DropSession(b, c, order)
      case DoSubscribe(c, f, st) => MqttRegistry.Subscribe(b, c, f, st)
      case DoUnsubscribe(c, f) => MqttRegistry.Unsubscribe(b, c, f)
      case DoPublish(topic) => MqttShare.Publish(b, topic)
  }

  ghost function Run(steps: seq<Step>): Registry {
    if steps == [] then EMPTY else Next(Run(steps[..|steps| - 1]), steps[|steps| - 1])
  }

  lemma NextInv(b: Registry, s: Step)
    requires Inv(b)
    ensures Inv(Next(b, s))
  {
    if Enabled(b, s) {
      match s
      case DoConnect(c, clean, order) =>
        if clean {
          DropSessionInv(b, c, order);
        }
        var d := if clean then DropSession(b, c, order) else b;
        ClientsInv(d, d.clients + {c});
      case DoDisconnect(c, order) => DropSessionInv(b, c, order);
      case DoSubscribe(c, f, st) => SubscribeInv(b, c, f, st);
      case DoUnsubscribe(c, f) => UnsubscribeInv(b, c, f);
      case DoPublish(topic) => PublishInv(b, topic);
    }
  }

  /** In every reachable state the three tables agree and every cursor is in range. */
  lemma {:induction false} RegistryAgrees(steps: seq<Step>)
    ensures Inv(Run(steps))
  {
    if steps == [] {
      EmptyInv();
    } else {
      RegistryAgrees(steps[..|steps| - 1]);
      NextInv(Run(steps[..|steps| - 1]), steps[|steps| - 1]);
    }
  }

  // --- what a publish reaches --------------------------------------------

  /** Routed keys are the subscriptions whose filter accepts the topic. */
  lemma RoutedKey(b: Registry, topic: Text, k: Key)
    requires Inv(b)
    ensures k in Keys(b, topic) <==> k in b.subs && Fast(Real(FilterIn(k)), topic)
  {
    RoutedIff(b.router, topic, |b.router|, k);
    assert RouterOk(b);
    if k in Keys(b, topic) {
      var i :| 0 <= i < |b.router| && b.router[i].id == k && Fast(b.router[i].filter, topic);
      FilterOfAt(b.router, i);
    }
    if k in b.subs {
      var i := FilterOfSome(b.router, k);
    }
  }

  lemma KeyHasNul(c: Client, f: Text)
    requires NulFree(c)
    ensures HasNul(SubKey(c, f))
  {
    TokenEndAt(SubKey(c, f), 0, |c|, NUL);
  }

  /** A group is matched exactly when it has members and its filter accepts the topic. */
  lemma MatchedIff(b: Registry, topic: Text, g: GroupKey)
    requires Inv(b) && GroupOk(g)
    ensures g in Matched(Keys(b, topic)) <==> g in b.groups && b.groups[g].members != [] && Fast(g.filter, topic)
  {
    if g in Matched(Keys(b, topic)) {
      MatchedHas(b, topic, g);
    }
    if g in b.groups && b.groups[g].members != [] && Fast(g.filter, topic) {
      var m := b.groups[g].members[0];
      var k := ShareKey(m, g);
      assert m in b.groups[g].members;
      KeyParts(m, ShareFilter(g));
      KeyHasNul(m, ShareFilter(g));
      ParseShareFilter(g);
      RoutedKey(b, topic, k);
    }
  }

  lemma MatchedHas(b: Registry, topic: Text, g: GroupKey)
    requires Inv(b) && GroupOk(g) && g in Matched(Keys(b, topic))
    ensures g in b.groups && b.groups[g].members != [] && Fast(g.filter, topic)
  {
    var k :| k in Keys(b, topic) && IsShared(k) && ParseShared(FilterIn(k)).value == g;
    RoutedKey(b, topic, k);
    SharedText(FilterIn(k));
    assert ShareKey(ClientOf(k), g) == k;
  }

  /**
   * A publish chooses one member of a shared group exactly when the group's filter accepts the
   * topic and some member is connected; the one chosen is connected and holds the subscription.
   */
  lemma SharedExactlyOne(steps: seq<Step>, topic: Text, g: GroupKey)
    requires GroupOk(g)
    ensures var b := Run(steps);
      var shared := Select(b, topic).shared;
      && (g in shared <==> g in b.groups && Fast(g.filter, topic) && exists m :: m in b.groups[g].members && m in b.clients)
      && (g in shared ==> shared[g] in b.groups[g].members && shared[g] in b.clients && ShareKey(shared[g], g) in b.subs)
  {
    var b := Run(steps);
    RegistryAgrees(steps);
    MatchedIff(b, topic, g);
    if g in b.groups {
      ChosenIff(b.groups[g], b.clients);
    }
  }

  /**
   * A publish picks at most one direct subscription of a client, and does pick one exactly when
   * the client holds a direct subscription that accepts the topic.
   */
  lemma DirectAtMostOne(steps: seq<Step>, topic: Text, c: Client)
    requires NulFree(c)
    ensures var b := Run(steps);
      var direct := Select(b, topic).direct;
      && (forall i, j :: 0 <= i < j < |direct| ==> ClientOf(direct[i]) != ClientOf(direct[j]))
      && ((exists k :: k in direct && ClientOf(k) == c) <==>
          exists f :: ParseShared(f).None? && SubKey(c, f) in b.subs && Fast(f, topic))
  {
    var b := Run(steps);
    RegistryAgrees(steps);
    DirectOnce(Keys(b, topic), {});
    if exists k :: k in Select(b, topic).direct && ClientOf(k) == c {
      var k :| k in Select(b, topic).direct && ClientOf(k) == c;
      DirectFrom(Keys(b, topic), {}, k);
      RoutedKey(b, topic, k);
      assert SubKey(c, FilterIn(k)) == k;
    }
    if exists f :: ParseShared(f).None? && SubKey(c, f) in b.subs && Fast(f, topic) {
      var f :| ParseShared(f).None? && SubKey(c, f) in b.subs && Fast(f, topic);
      KeyParts(c, f);
      KeyHasNul(c, f);
      RoutedKey(b, topic, SubKey(c, f));
      DirectReaches(Keys(b, topic), {}, SubKey(c, f));
    }
  }

  // --- the broker --------------------------------------------------------

  datatype Want = Want(filter: Text, state: SubState)

  function SubscribeAll(b: Registry, c: Client, ws: seq<Want>): Registry {
    if ws == [] then b
    else
      var last := ws[|ws| - 1];
      MqttRegistry.Subscribe(SubscribeAll(b, c, ws[..|ws| - 1]), c, last.filter, last.state)
  }

  function UnsubscribeAll(b: Registry, c: Client, fs: seq<Text>): Registry {
    if fs == [] then b else MqttRegistry.Unsubscribe(UnsubscribeAll(b, c, fs[..|fs| - 1]), c, fs[|fs| - 1])
  }

  class Broker {
    const router: TopicRouter
    var subs: map<Key, SubState>
    var clients: set<Client>
    var groups: map<GroupKey, Group>

    ghost predicate Valid()
      reads this, router
    {
      router.Valid()
    }

    ghost function State(): Registry
      reads this, router
    {
      Registry(router.held, subs, clients, groups)
    }

    constructor ()
      ensures Valid() && State() == EMPTY && fresh(router)
    {
      router := new TopicRouter();
      subs, clients, groups := map[], {}, map[];
    }

    method RemoveSharedMember(g: GroupKey, c: Client)
      modifies this`groups
      ensures groups == Leave(old(groups), g, c)
    {
      if g in groups {
        var group := groups[g];
        var pos := Position(group.members, c);
        if pos.Some? {
          var rest := group.members[..pos.value] + group.members[pos.value + 1..];
          groups := groups[g := Group(rest, if rest == [] then 0 else group.cursor % |rest|)];
        } else {
          assert groups[g := group] == groups;
        }
      }
    }

    method DropOne(c: Client, k: Key)
      requires Valid() && Owns(c, k)
      modifies this`subs, this`groups, router
      ensures Valid() && State() == DropKey(old(State()), c, k)
    {
      subs := subs - {k};
      router.Unsubscribe(k);
      var shared := ParseShared(k[|c| + 1..]);
      if shared.Some? {
        RemoveSharedMember(shared.value, c);
      }
    }

    /** Take out every subscription whose key has the client's prefix. */
    method DropSession(c: Client) returns (ghost order: seq<Key>)
      requires Valid()
      modifies this, router
      ensures Valid() && OwnedBy(old(State()), c, order)
      ensures State() == MqttRegistry.DropSession(old(State()), c, order)
    {
      clients := clients - {c};
      var keys := set k | k in subs && Owns(c, k);
      var left := keys;
      order := [];
      while left != {}
        invariant Valid() && left <= keys && Distinct(order) && Elements(order) == keys - left
        invariant clients == old(clients) - {c}
        invariant State() == DropKeys(old(State()), c, order).(clients := clients)
        decreases left
      {
        var k :| k in left;
        ElementsSnoc(order, k);
        assert (order + [k])[..|order|] == order && k !in Elements(order);
        DropOne(c, k);
        order, left := order + [k], left - {k};
      }
      forall k ensures k in order <==> k in keys {
        ElementsIn(order, k);
      }
    }

    method Connect(c: Client, clean: bool) returns (ghost order: seq<Key>)
      requires Valid()
      modifies this, router
      ensures Valid() && (clean ==> OwnedBy(old(State()), c, order))
      ensures State() == Connected(old(State()), c, clean, order)
    {
      order := [];
      if clean {
        order := DropSession(c);
      }
      clients := clients + {c};
    }

    method SubscribeOne(c: Client, w: Want)
      requires Valid()
      modifies this, router
      ensures Valid() && State() == MqttRegistry.Subscribe(old(State()), c, w.filter, w.state)
    {
      var shared, key := ParseShared(w.filter), SubKey(c, w.filter);
      router.Subscribe(key, Real(w.filter));
      subs := subs[key := w.state];
      if shared.Some? {
        var g := shared.value;
        var entry := if g in groups then groups[g] else Group([], 0);
        if c !in entry.members {
          entry := entry.(members := entry.members + [c]);
        }
        groups := groups[g := entry];
      }
    }

    method Subscribe(c: Client, ws: seq<Want>)
      requires Valid()
      modifies this, router
      ensures Valid() && State() == SubscribeAll(old(State()), c, ws)
    {
      for i := 0 to |ws|
        invariant Valid() && State() == SubscribeAll(old(State()), c, ws[..i])
      {
        assert ws[..i + 1][..i] == ws[..i];
        SubscribeOne(c, ws[i]);
      }
      assert ws[..|ws|] == ws;
    }

    method UnsubscribeOne(c: Client, f: Text)
      requires Valid()
      modifies this, router
      ensures Valid() && State() == MqttRegistry.Unsubscribe(old(State()), c, f)
    {
      var key := SubKey(c, f);
      subs := subs - {key};
      router.Unsubscribe(key);
      var shared := ParseShared(f);
      if shared.Some? {
        RemoveSharedMember(shared.value, c);
      }
    }

    method Unsubscribe(c: Client, fs: seq<Text>)
      requires Valid()
      modifies this, router
      ensures Valid() && State() == UnsubscribeAll(old(State()), c, fs)
    {
      for i := 0 to |fs|
        invariant Valid() && State() == UnsubscribeAll(old(State()), c, fs[..i])
      {
        assert fs[..i + 1][..i] == fs[..i];
        UnsubscribeOne(c, fs[i]);
      }
      assert fs[..|fs|] == fs;
    }

    /** Split the routed keys into one direct key per client and the set of matched groups, then choose in each group. */
    method Publish(topic: Text) returns (sel: Selection)
      requires Valid()
      modifies this`groups
      ensures Valid() && State() == MqttShare.Publish(old(State()), topic) && sel == Select(old(State()), topic)
    {
      var keys := router.Route(topic);
      var direct, matched := Partition(keys);
      var next, shared := ChooseAll(groups, clients, matched, State());
      groups := next;
      sel := Selection(direct, shared);
    }
  }

  /** The matched groups, in any order. */
  method ChooseAll(groups: map<GroupKey, Group>, clients: set<Client>, matched: set<GroupKey>, ghost b: Registry)
    returns (next: map<GroupKey, Group>, shared: map<GroupKey, Client>)
    requires b.groups == groups && b.clients == clients
    ensures next == MovedIn(b, matched).groups && shared == SharedIn(b, matched)
  {
    next, shared := groups, map[];
    var left := matched;
    ghost var done: set<GroupKey> := {};
    while left != {}
      invariant left !! done && left + done == matched
      invariant next == MovedIn(b, done).groups && shared == SharedIn(b, done)
      decreases left
    {
      var g :| g in left;
      if g in groups {
        var at := FindConnected(groups[g], clients);
        if at.Some? && at.value < |groups[g].members| {
          shared := shared[g := groups[g].members[at.value]];
          next := next[g := groups[g].(cursor := (at.value + 1) % |groups[g].members|)];
        }
        PickInRange(groups[g], clients);
      }
      left, done := left - {g}, done + {g};
    }
  }

  lemma {:induction false} PickFromInRange(g: Group, clients: set<Client>, i: nat)
    requires i <= |g.members|
    ensures PickFrom(g, clients, i).Some? ==> PickFrom(g, clients, i).value < |g.members|
    decreases |g.members| - i
  {
    if i < |g.members| {
      PickFromInRange(g, clients, i + 1);
    }
  }

  lemma PickInRange(g: Group, clients: set<Client>)
    ensures Pick(g, clients).Some? ==> Pick(g, clients).value < |g.members|
  {
    PickFromInRange(g, clients, 0);
  }

  /** One pass over the routed keys. */
  lemma DirectTakes(keys: seq<Key>, i: nat, seen: set<Client>)
    requires i < |keys| && IsDirect(keys[i]) && ClientOf(keys[i]) !in seen
    ensures Direct(keys[i..], seen) == [keys[i]] + Direct(keys[i + 1..], seen + {ClientOf(keys[i])})
  {
    assert keys[i..][0] == keys[i] && keys[i..][1..] == keys[i + 1..];
  }

  lemma DirectPasses(keys: seq<Key>, i: nat, seen: set<Client>)
    requires i < |keys| && !(IsDirect(keys[i]) && ClientOf(keys[i]) !in seen)
    ensures Direct(keys[i..], seen) == Direct(keys[i + 1..], seen)
  {
    assert keys[i..][0] == keys[i] && keys[i..][1..] == keys[i + 1..];
  }

  method Partition(keys: seq<Key>) returns (direct: seq<Key>, matched: set<GroupKey>)
    ensures direct == Direct(keys, {}) && matched == Matched(keys)
  {
    direct, matched := [], {};
    var seen: set<Client> := {};
    for i := 0 to |keys|
      invariant direct + Direct(keys[i..], seen) == Direct(keys, {})
      invariant matched == Matched(keys[..i])
    {
      var k := keys[i];
      MatchedSnoc(keys[..i], k);
      assert keys[..i + 1] == keys[..i] + [k];
      if IsShared(k) {
        DirectPasses(keys, i, seen);
        matched := matched + {ParseShared(FilterIn(k)).value};
      } else if IsDirect(k) && ClientOf(k) !in seen {
        DirectTakes(keys, i, seen);
        Regroup(direct, [k], Direct(keys[i + 1..], seen + {ClientOf(k)}));
        direct := direct + [k];
        seen := seen + {ClientOf(k)};
      } else {
        DirectPasses(keys, i, seen);
      }
    }
    assert keys[..|keys|] == keys && keys[|keys|..] == [];
  }

  lemma MatchedSnoc(keys: seq<Key>, k: Key)
    ensures Matched(keys + [k]) == Matched(keys) + if IsShared(k) then {ParseShared(FilterIn(k)).value} else {}
  {
    var a, b := Matched(keys + [k]), Matched(keys) + if IsShared(k) then {ParseShared(FilterIn(k)).value} else {};
    forall g | g in b ensures g in a {
      if g in Matched(keys) {
        var j :| j in keys && IsShared(j) && ParseShared(FilterIn(j)).value == g;
        assert j in keys + [k];
      } else {
        assert k in keys + [k];
      }
    }
  }

  /** The members from the cursor on, once round, until one is connected. */
  method FindConnected(g: Group, clients: set<Client>) returns (at: Option<nat>)
    ensures at == Pick(g, clients)
  {
    var n := |g.members|;
    for i := 0 to n
      invariant PickFrom(g, clients, i) == Pick(g, clients)
    {
      var idx := (g.cursor + i) % n;
      if g.members[idx] in clients {
        return Some(idx);
      }
    }
    return None;
  }
}
