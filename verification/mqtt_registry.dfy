/**
 * The broker's subscription registry: router entries, per-subscription state and shared-group
 * membership, kept in step by every connect, disconnect, subscribe and unsubscribe.
 */
module MqttRegistry {
  import opened Common
  import opened TopicMatch
  import opened TopicRouting

  type Client = seq<byte>
  type Key = seq<byte>

  const NUL: byte := 0

  /** The prefix "$share/". */
  const SHARE: Text := [36, 115, 104, 97, 114, 101, 47]

  datatype SubState = SubState(qos: nat, noLocal: bool, retainAsPublished: bool, identifier: Option<nat>)

  datatype GroupKey = GroupKey(name: Text, filter: Text)

  /** Members in the order they joined, and the place the next selection starts. */
  datatype Group = Group(members: seq<Client>, cursor: nat)

  datatype Registry = Registry(router: seq<Sub>, subs: map<Key, SubState>, clients: set<Client>, groups: map<GroupKey, Group>)

  const EMPTY := Registry([], map[], {}, map[])

  // --- keys --------------------------------------------------------------

  predicate NulFree(c: Client) { forall i :: 0 <= i < |c| ==> c[i] != NUL }

  function SubKey(c: Client, f: Text): Key { c + [NUL] + f }

  function ClientOf(k: Key): Client { k[..TokenEnd(k, 0, NUL)] }

  function FilterIn(k: Key): Text {
    var p := TokenEnd(k, 0, NUL);
    if p < |k| then k[p + 1..] else []
  }

  /** A key gives back the client and the filter it was made of. */
  lemma KeyParts(c: Client, f: Text)
    requires NulFree(c)
    ensures ClientOf(SubKey(c, f)) == c && FilterIn(SubKey(c, f)) == f
  {
    TokenEndAt(SubKey(c, f), 0, |c|, NUL);
  }

  lemma KeysDiffer(c: Client, f: Text, d: Client, g: Text)
    requires NulFree(c) && NulFree(d) && SubKey(c, f) == SubKey(d, g)
    ensures c == d && f == g
  {
    KeyParts(c, f);
    KeyParts(d, g);
  }

  /** The keys a session owns, as found by their prefix. */
  predicate Owns(c: Client, k: Key) { |c| < |k| && k[..|c|] == c && k[|c|] == NUL }

  lemma OwnsIff(c: Client, d: Client, f: Text)
    requires NulFree(c) && NulFree(d)
    ensures Owns(c, SubKey(d, f)) <==> c == d
  {
    var k := SubKey(d, f);
    if Owns(c, k) {
      assert k == SubKey(c, k[|c| + 1..]);
      KeysDiffer(c, k[|c| + 1..], d, f);
    }
  }

  // --- identifiers with a NUL --------------------------------------------

  /** `d` starts with `c` and a NUL. */
  predicate Under(c: Client, d: Client) { c + [NUL] <= d }

  lemma UnderShares(c: Client, d: Client, g: Text) returns (f: Text)
    requires Under(c, d)
    ensures SubKey(c, f) == SubKey(d, g)
  {
    f := d[|c| + 1..] + [NUL] + g;
    assert d == c + [NUL] + d[|c| + 1..];
  }

  lemma SharedUnder(c: Client, f: Text, d: Client, g: Text)
    requires SubKey(c, f) == SubKey(d, g) && |c| < |d|
    ensures Under(c, d)
  {
    var k := SubKey(d, g);
    assert d == k[..|d|] && k[..|c|] == c && k[|c|] == NUL;
  }

  /** Two clients can have one key between them exactly when they are the same or one is the other with a NUL behind it. */
  lemma KeysMeetIff(c: Client, d: Client)
    ensures (exists f, g :: SubKey(c, f) == SubKey(d, g)) <==> c == d || Under(c, d) || Under(d, c)
  {
    if exists f, g :: SubKey(c, f) == SubKey(d, g) {
      var f, g :| SubKey(c, f) == SubKey(d, g);
      if |c| < |d| {
        SharedUnder(c, f, d, g);
      } else if |d| < |c| {
        SharedUnder(d, g, c, f);
      } else {
        assert c == SubKey(c, f)[..|c|] && d == SubKey(d, g)[..|d|];
      }
    }
    if c == d {
      assert SubKey(c, []) == SubKey(d, []);
    } else if Under(c, d) {
      var f := UnderShares(c, d, []);
    } else if Under(d, c) {
      var g := UnderShares(d, c, []);
    }
  }

  lemma OwnsUnder(c: Client, d: Client, f: Text)
    requires c == d || Under(c, d)
    ensures Owns(c, SubKey(d, f))
  {
    if c != d {
      assert SubKey(d, f)[..|c| + 1] == c + [NUL];
      assert SubKey(d, f)[..|c|] == (c + [NUL])[..|c|] == c;
    }
  }

  lemma OwnsBare(c: Client, d: Client)
    requires Owns(c, SubKey(d, []))
    ensures c == d || Under(c, d)
  {
    var k := SubKey(d, []);
    assert k == SubKey(c, k[|c| + 1..]);
    if |c| < |d| {
      SharedUnder(c, k[|c| + 1..], d, []);
    } else {
      assert c == k[..|c|] && d == k[..|d|];
    }
  }

  /** A session is taken for the owner of all of another client's keys exactly when that client is itself or under it. */
  lemma OwnsAllIff(c: Client, d: Client)
    ensures (forall f :: Owns(c, SubKey(d, f))) <==> c == d || Under(c, d)
  {
    if Owns(c, SubKey(d, [])) {
      OwnsBare(c, d);
      forall f ensures Owns(c, SubKey(d, f)) {
        OwnsUnder(c, d, f);
      }
    } else if c == d || Under(c, d) {
      OwnsUnder(c, d, []);
    }
  }

  /** The shortest pair: client "a" with filter "b\0f", and client "a\0b" with filter "f". */
  lemma SameKey()
    ensures Under([97], [97, NUL, 98]) && SubKey([97], [98, NUL, 102]) == SubKey([97, NUL, 98], [102])
  {
    var c, d: Client := [97], [97, NUL, 98];
    assert c + [NUL] == d[..2];
  }

  // --- shared filters ----------------------------------------------------

  predicate GroupOk(g: GroupKey) { g.name != [] && g.filter != [] && forall i :: 0 <= i < |g.name| ==> g.name[i] != SEP }

  function ShareFilter(g: GroupKey): Text { SHARE + (g.name + [SEP] + g.filter) }

  /** "$share/{group}/{filter}" with neither part empty. */
  function ParseShared(f: Text): Option<GroupKey> {
    if |f| < |SHARE| || f[..|SHARE|] != SHARE then None
    else
      var rest := f[|SHARE|..];
      var p := TokenEnd(rest, 0, SEP);
      if p == |rest| || p == 0 || p + 1 == |rest| then None else Some(GroupKey(rest[..p], rest[p + 1..]))
  }

  lemma ParseShareFilter(g: GroupKey)
    requires GroupOk(g)
    ensures ParseShared(ShareFilter(g)) == Some(g)
  {
    var f, rest := ShareFilter(g), g.name + [SEP] + g.filter;
    assert f[|SHARE|..] == rest && f[..|SHARE|] == SHARE;
    TokenEndAt(rest, 0, |g.name|, SEP);
    assert rest[..|g.name|] == g.name && rest[|g.name| + 1..] == g.filter;
  }

  lemma SharedText(f: Text)
    requires ParseShared(f).Some?
    ensures GroupOk(ParseShared(f).value) && ShareFilter(ParseShared(f).value) == f
  {
    var rest := f[|SHARE|..];
    var p := TokenEnd(rest, 0, SEP);
    forall i | 0 <= i < p ensures rest[i] != SEP {
      NoSepBefore(rest, 0, SEP, i);
    }
    assert rest == rest[..p] + [SEP] + rest[p + 1..];
    assert f == SHARE + rest;
  }

  /** The filter topics are matched against. */
  function Real(f: Text): Text {
    match ParseShared(f)
    case None => f
    case Some(g) => g.filter
  }

  function ShareKey(c: Client, g: GroupKey): Key { SubKey(c, ShareFilter(g)) }

  // --- group membership --------------------------------------------------

  function Joined(g: Group, c: Client): Group {
    if c in g.members then g else g.(members := g.members + [c])
  }

  /** A leaving member takes the cursor back into range. */
  function Left(g: Group, c: Client): Group {
    match Position(g.members, c)
    case None => g
    case Some(i) =>
      var rest := g.members[..i] + g.members[i + 1..];
      Group(rest, if rest == [] then 0 else g.cursor % |rest|)
  }

  function Join(groups: map<GroupKey, Group>, g: GroupKey, c: Client): map<GroupKey, Group> {
    groups[g := Joined(if g in groups then groups[g] else Group([], 0), c)]
  }

  function Leave(groups: map<GroupKey, Group>, g: GroupKey, c: Client): map<GroupKey, Group> {
    if g in groups then groups[g := Left(groups[g], c)] else groups
  }

  /** Members differ and the cursor points at one of them, or at the start of an empty list. */
  ghost predicate WellKept(g: Group) {
    Distinct(g.members) && (if g.members == [] then g.cursor == 0 else g.cursor < |g.members|)
  }

  lemma JoinedKept(g: Group, c: Client)
    requires WellKept(g)
    ensures WellKept(Joined(g, c)) && forall d :: d in Joined(g, c).members <==> d == c || d in g.members
  {
  }

  lemma LeftKept(g: Group, c: Client)
    requires WellKept(g)
    ensures WellKept(Left(g, c)) && forall d :: d in Left(g, c).members <==> d != c && d in g.members
  {
    var at := Position(g.members, c);
    if at.Some? {
      var i, rest := at.value, g.members[..at.value] + g.members[at.value + 1..];
      forall d ensures d in rest <==> d != c && d in g.members {
        if d in g.members && d != c {
          var j :| 0 <= j < |g.members| && g.members[j] == d;
          assert rest[if j < i then j else j - 1] == d;
        }
      }
    }
  }

  // --- operations --------------------------------------------------------

  function Subscribe(b: Registry, c: Client, f: Text, st: SubState): Registry {
    var key := SubKey(c, f);
    b.(router := WithFilter(b.router, key, Real(f)), subs := b.subs[key := st],
       groups := match ParseShared(f) case None => b.groups case Some(g) => Join(b.groups, g, c))
  }

  function Unsubscribe(b: Registry, c: Client, f: Text): Registry {
    var key := SubKey(c, f);
    b.(router := Without(b.router, key), subs := b.subs - {key},
       groups := match ParseShared(f) case None => b.groups case Some(g) => Leave(b.groups, g, c))
  }

  /** One of the keys found for a session is taken out everywhere. */
  function DropKey(b: Registry, c: Client, k: Key): Registry {
    var f := if |c| < |k| then k[|c| + 1..] else [];
    b.(router := Without(b.router, k), subs := b.subs - {k},
       groups := match ParseShared(f) case None => b.groups case Some(g) => Leave(b.groups, g, c))
  }

  function DropKeys(b: Registry, c: Client, order: seq<Key>): Registry {
    if order == [] then b else DropKey(DropKeys(b, c, order[..|order| - 1]), c, order[|order| - 1])
  }

  /** The keys come out of a hash map in any order. */
  ghost predicate OwnedBy(b: Registry, c: Client, order: seq<Key>) {
    Distinct(order) && forall k :: k in order <==> k in b.subs && Owns(c, k)
  }

  function DropSession(b: Registry, c: Client, order: seq<Key>): Registry {
    DropKeys(b, c, order).(clients := b.clients - {c})
  }

  // --- invariant ---------------------------------------------------------

  /** The router and the subscription states have the same keys, each once, with the filter the key names. */
  ghost predicate RouterOk(b: Registry) {
    Separate(b.router) && forall k :: FilterOf(b.router, k) == if k in b.subs then Some(Real(FilterIn(k))) else None
  }

  ghost predicate KeysOk(b: Registry) {
    forall k :: k in b.subs ==> NulFree(ClientOf(k)) && k == SubKey(ClientOf(k), FilterIn(k))
  }

  /** A client is a member of a group exactly when it holds the shared subscription. */
  ghost predicate MembersOk(b: Registry) {
    forall c: Client, g: GroupKey :: NulFree(c) && GroupOk(g) ==>
      (g in b.groups && c in b.groups[g].members <==> ShareKey(c, g) in b.subs)
  }

  ghost predicate GroupsOk(b: Registry) {
    forall g :: g in b.groups ==>
      GroupOk(g) && WellKept(b.groups[g]) && forall c :: c in b.groups[g].members ==> NulFree(c)
  }

  ghost predicate Inv(b: Registry) { RouterOk(b) && KeysOk(b) && MembersOk(b) && GroupsOk(b) }

  lemma EmptyInv()
    ensures Inv(EMPTY)
  {
  }

  lemma SubscribeInv(b: Registry, c: Client, f: Text, st: SubState)
    requires Inv(b) && NulFree(c)
    ensures Inv(Subscribe(b, c, f, st))
  {
    SubscribeRouter(b, c, f, st);
    SubscribeMembers(b, c, f, st);
    SubscribeGroups(b, c, f, st);
    KeyParts(c, f);
  }

  lemma SubscribeRouter(b: Registry, c: Client, f: Text, st: SubState)
    requires RouterOk(b) && NulFree(c)
    ensures RouterOk(Subscribe(b, c, f, st))
  {
    var key, d := SubKey(c, f), Subscribe(b, c, f, st);
    KeyParts(c, f);
    ApplySeparate(b.router, Op.Subscribe(key, Real(f)));
    forall k ensures FilterOf(d.router, k) == if k in d.subs then Some(Real(FilterIn(k))) else None {
      WithFilterSets(b.router, key, Real(f), k);
    }
  }

  lemma SubscribeGroups(b: Registry, c: Client, f: Text, st: SubState)
    requires GroupsOk(b) && NulFree(c)
    ensures GroupsOk(Subscribe(b, c, f, st))
  {
    if ParseShared(f).Some? {
      var g := ParseShared(f).value;
      SharedText(f);
      JoinedKept(if g in b.groups then b.groups[g] else Group([], 0), c);
    }
  }

  /** Which shared keys an operation on one filter can concern. */
  lemma ShareKeyIs(c: Client, g: GroupKey, d: Client, f: Text)
    requires NulFree(c) && NulFree(d) && GroupOk(g)
    ensures ShareKey(c, g) == SubKey(d, f) <==> c == d && ParseShared(f) == Some(g)
  {
    if ShareKey(c, g) == SubKey(d, f) {
      KeysDiffer(c, ShareFilter(g), d, f);
      ParseShareFilter(g);
    }
    if c == d && ParseShared(f) == Some(g) {
      SharedText(f);
    }
  }

  lemma SubscribeMembers(b: Registry, d: Client, f: Text, st: SubState)
    requires MembersOk(b) && GroupsOk(b) && NulFree(d)
    ensures MembersOk(Subscribe(b, d, f, st))
  {
    var e := Subscribe(b, d, f, st);
    forall c: Client, g: GroupKey | NulFree(c) && GroupOk(g)
      ensures g in e.groups && c in e.groups[g].members <==> ShareKey(c, g) in e.subs
    {
      ShareKeyIs(c, g, d, f);
      if ParseShared(f).Some? {
        var h := ParseShared(f).value;
        JoinedKept(if h in b.groups then b.groups[h] else Group([], 0), d);
      }
    }
  }

  lemma UnsubscribeInv(b: Registry, c: Client, f: Text)
    requires Inv(b) && NulFree(c)
    ensures Inv(Unsubscribe(b, c, f))
  {
    UnsubscribeRouter(b, c, f);
    UnsubscribeMembers(b, c, f);
    UnsubscribeGroups(b, c, f);
  }

  lemma UnsubscribeRouter(b: Registry, c: Client, f: Text)
    requires RouterOk(b)
    ensures RouterOk(Unsubscribe(b, c, f))
  {
    var key, d := SubKey(c, f), Unsubscribe(b, c, f);
    ApplySeparate(b.router, Op.Unsubscribe(key));
    forall k ensures FilterOf(d.router, k) == if k in d.subs then Some(Real(FilterIn(k))) else None {
      WithoutDrops(b.router, key, k);
    }
  }

  lemma UnsubscribeGroups(b: Registry, c: Client, f: Text)
    requires GroupsOk(b)
    ensures GroupsOk(Unsubscribe(b, c, f))
  {
    if ParseShared(f).Some? && ParseShared(f).value in b.groups {
      LeftKept(b.groups[ParseShared(f).value], c);
    }
  }

  lemma UnsubscribeMembers(b: Registry, d: Client, f: Text)
    requires MembersOk(b) && GroupsOk(b) && NulFree(d)
    ensures MembersOk(Unsubscribe(b, d, f))
  {
    var e := Unsubscribe(b, d, f);
    forall c: Client, g: GroupKey | NulFree(c) && GroupOk(g)
      ensures g in e.groups && c in e.groups[g].members <==> ShareKey(c, g) in e.subs
    {
      ShareKeyIs(c, g, d, f);
      if ParseShared(f).Some? && ParseShared(f).value in b.groups {
        LeftKept(b.groups[ParseShared(f).value], d);
      }
    }
  }

  lemma DropIsUnsubscribe(b: Registry, c: Client, k: Key)
    requires Owns(c, k)
    ensures DropKey(b, c, k) == Unsubscribe(b, c, k[|c| + 1..])
  {
    assert k == SubKey(c, k[|c| + 1..]);
  }

  lemma {:induction false} DropKeysInv(b: Registry, c: Client, order: seq<Key>)
    requires Inv(b) && NulFree(c) && forall k :: k in order ==> Owns(c, k)
    ensures Inv(DropKeys(b, c, order)) && DropKeys(b, c, order).subs == b.subs - Elements(order)
  {
    if order != [] {
      var front, k := order[..|order| - 1], order[|order| - 1];
      assert order == front + [k] && k in order;
      DropKeysInv(b, c, front);
      DropIsUnsubscribe(DropKeys(b, c, front), c, k);
      UnsubscribeInv(DropKeys(b, c, front), c, k[|c| + 1..]);
      ElementsSnoc(front, k);
    }
  }

  lemma ClientsInv(b: Registry, clients: set<Client>)
    requires Inv(b)
    ensures Inv(b.(clients := clients))
  {
  }

  lemma {:induction false} DropKeysSubs(b: Registry, c: Client, order: seq<Key>)
    ensures DropKeys(b, c, order).subs == b.subs - Elements(order)
    decreases |order|
  {
    if order != [] {
      var front, k := order[..|order| - 1], order[|order| - 1];
      DropKeysSubs(b, c, front);
      ElementsSnoc(front, k);
      assert order == front + [k];
    }
  }

  /** Dropping a session takes out the subscriptions of every client under it as well. */
  lemma DropTakesUnder(b: Registry, c: Client, order: seq<Key>, d: Client, f: Text)
    requires OwnedBy(b, c, order) && Under(c, d)
    ensures SubKey(d, f) !in DropSession(b, c, order).subs
  {
    DropKeysSubs(b, c, order);
    OwnsUnder(c, d, f);
    ElementsIn(order, SubKey(d, f));
  }

  /** Dropping a session takes out exactly its own subscriptions. */
  lemma DropSessionInv(b: Registry, c: Client, order: seq<Key>)
    requires Inv(b) && NulFree(c) && OwnedBy(b, c, order)
    ensures var d := DropSession(b, c, order);
      Inv(d) && c !in d.clients && forall k :: k in d.subs <==> k in b.subs && ClientOf(k) != c
  {
    DropKeysInv(b, c, order);
    ClientsInv(DropKeys(b, c, order), b.clients - {c});
    forall k ensures k in DropSession(b, c, order).subs <==> k in b.subs && ClientOf(k) != c {
      ElementsIn(order, k);
      if k in b.subs {
        OwnsIff(c, ClientOf(k), FilterIn(k));
      }
    }
  }
}
