/** Whom a publish is delivered to: one subscription per client, and one connected member per shared group. */
module MqttShare {
  import opened Common
  import opened TopicMatch
  import opened TopicRouting
  import opened MqttRegistry

  // --- direct deliveries -------------------------------------------------

  predicate HasNul(k: Key) { TokenEnd(k, 0, NUL) < |k| }

  predicate IsShared(k: Key) { HasNul(k) && ParseShared(FilterIn(k)).Some? }

  predicate IsDirect(k: Key) { HasNul(k) && ParseShared(FilterIn(k)).None? }

  /** The first direct key of every client not seen yet. */
  function Direct(keys: seq<Key>, seen: set<Client>): seq<Key>
    decreases |keys|
  {
    if keys == [] then []
    else if IsDirect(keys[0]) && ClientOf(keys[0]) !in seen
    then [keys[0]] + Direct(keys[1..], seen + {ClientOf(keys[0])})
    else Direct(keys[1..], seen)
  }

  lemma {:induction false} DirectFrom(keys: seq<Key>, seen: set<Client>, k: Key)
    requires k in Direct(keys, seen)
    ensures k in keys && IsDirect(k) && ClientOf(k) !in seen
    decreases |keys|
  {
    if IsDirect(keys[0]) && ClientOf(keys[0]) !in seen {
      if k != keys[0] {
        DirectFrom(keys[1..], seen + {ClientOf(keys[0])}, k);
      }
    } else {
      DirectFrom(keys[1..], seen, k);
    }
  }

  lemma {:induction false} DirectReaches(keys: seq<Key>, seen: set<Client>, k: Key)
    requires k in keys && IsDirect(k) && ClientOf(k) !in seen
    ensures exists d :: d in Direct(keys, seen) && ClientOf(d) == ClientOf(k)
    decreases |keys|
  {
    if IsDirect(keys[0]) && ClientOf(keys[0]) !in seen {
      assert keys[0] in Direct(keys, seen);
      if ClientOf(keys[0]) != ClientOf(k) {
        DirectReaches(keys[1..], seen + {ClientOf(keys[0])}, k);
        var d :| d in Direct(keys[1..], seen + {ClientOf(keys[0])}) && ClientOf(d) == ClientOf(k);
        assert d in Direct(keys, seen);
      }
    } else {
      DirectReaches(keys[1..], seen, k);
    }
  }

  lemma {:induction false} DirectOnce(keys: seq<Key>, seen: set<Client>)
    ensures forall i, j :: 0 <= i < j < |Direct(keys, seen)| ==> ClientOf(Direct(keys, seen)[i]) != ClientOf(Direct(keys, seen)[j])
    decreases |keys|
  {
    if keys != [] {
      if IsDirect(keys[0]) && ClientOf(keys[0]) !in seen {
        var rest, ds := seen + {ClientOf(keys[0])}, Direct(keys[1..], seen + {ClientOf(keys[0])});
        DirectOnce(keys[1..], rest);
        forall j | 0 <= j < |ds| ensures ClientOf(ds[j]) != ClientOf(keys[0]) {
          DirectFrom(keys[1..], rest, ds[j]);
        }
      } else {
        DirectOnce(keys[1..], seen);
      }
    }
  }

  // --- shared groups -----------------------------------------------------

  function Matched(keys: seq<Key>): set<GroupKey> {
    set k | k in keys && IsShared(k) :: ParseShared(FilterIn(k)).value
  }

  /** The first connected member from the cursor on, going round. */
  function PickFrom(g: Group, clients: set<Client>, i: nat): Option<nat>
    requires i <= |g.members|
    decreases |g.members| - i
  {
    if i == |g.members| then None
    else
      var at := (g.cursor + i) % |g.members|;
      if g.members[at] in clients then Some(at) else PickFrom(g, clients, i + 1)
  }

  function Pick(g: Group, clients: set<Client>): Option<nat> { PickFrom(g, clients, 0) }

  function Advance(g: Group, clients: set<Client>): Group {
    match Pick(g, clients)
    case None => g
    case Some(at) => if |g.members| == 0 then g else g.(cursor := (at + 1) % |g.members|)
  }

  function Chosen(g: Group, clients: set<Client>): Option<Client> {
    match Pick(g, clients)
    case None => None
    case Some(at) => if at < |g.members| then Some(g.members[at]) else None
  }

  datatype Selection = Selection(direct: seq<Key>, shared: map<GroupKey, Client>)

  function Keys(b: Registry, topic: Text): seq<Key> { Routed(b.router, topic, |b.router|) }

  /** The member chosen in each matched group that has one connected. */
  function SharedIn(b: Registry, matched: set<GroupKey>): map<GroupKey, Client> {
    map g | g in b.groups && g in matched && Chosen(b.groups[g], b.clients).Some? :: Chosen(b.groups[g], b.clients).value
  }

  function MovedIn(b: Registry, matched: set<GroupKey>): Registry {
    b.(groups := map g | g in b.groups :: if g in matched then Advance(b.groups[g], b.clients) else b.groups[g])
  }

  function Select(b: Registry, topic: Text): Selection {
    Selection(Direct(Keys(b, topic), {}), SharedIn(b, Matched(Keys(b, topic))))
  }

  /** A publish moves the cursors of the groups it matched, and nothing else. */
  function Publish(b: Registry, topic: Text): Registry { MovedIn(b, Matched(Keys(b, topic))) }

  // --- going round -------------------------------------------------------

  /** The position `i` places after the cursor. */
  function Seat(n: nat, cursor: nat, i: nat): nat
    requires cursor < n && i < n
  {
    if cursor + i < n then cursor + i else cursor + i - n
  }

  /** One division step, for a number that goes less than twice round. */
  lemma ModOnce(x: nat, n: nat)
    requires 0 < n && x < 2 * n
    ensures x % n == if x < n then x else x - n
  {
    var q := x / n;
    assert x == n * q + x % n;
    if q >= 2 {
      MulLe(n, 2, q);
    } else if q <= 0 {
      MulLe(n, q, 0);
    }
  }

  lemma SeatIs(n: nat, cursor: nat, i: nat)
    requires cursor < n && i < n
    ensures (cursor + i) % n == Seat(n, cursor, i)
  {
    ModOnce(cursor + i, n);
  }

  /** All positions, starting at the cursor. */
  function Round(n: nat, cursor: nat): (r: seq<nat>)
    requires cursor < n
    ensures |r| == n && forall i :: 0 <= i < n ==> r[i] == Seat(n, cursor, i)
  {
    seq(n, i requires 0 <= i < n => Seat(n, cursor, i))
  }

  /** The positions of connected members among `ps`. */
  function Online(m: seq<Client>, clients: set<Client>, ps: seq<nat>): seq<nat> {
    if ps == [] then []
    else if ps[0] < |m| && m[ps[0]] in clients then [ps[0]] + Online(m, clients, ps[1..])
    else Online(m, clients, ps[1..])
  }

  lemma {:induction false} OnlineIn(m: seq<Client>, clients: set<Client>, ps: seq<nat>, p: nat)
    ensures p in Online(m, clients, ps) <==> p in ps && p < |m| && m[p] in clients
  {
    if ps != [] {
      OnlineIn(m, clients, ps[1..], p);
    }
  }

  lemma {:induction false} OnlineConcat(m: seq<Client>, clients: set<Client>, a: seq<nat>, b: seq<nat>)
    ensures Online(m, clients, a + b) == Online(m, clients, a) + Online(m, clients, b)
    decreases |a|
  {
    if a == [] {
      assert a + b == b;
    } else {
      assert (a + b)[1..] == a[1..] + b;
      OnlineConcat(m, clients, a[1..], b);
    }
  }

  lemma {:induction false} OnlineDistinct(m: seq<Client>, clients: set<Client>, ps: seq<nat>)
    requires Distinct(ps)
    ensures Distinct(Online(m, clients, ps))
  {
    if ps != [] {
      OnlineDistinct(m, clients, ps[1..]);
      OnlineIn(m, clients, ps[1..], ps[0]);
    }
  }

  /** The places of connected members in the order their turns come. */
  function Turns(g: Group, clients: set<Client>): seq<nat> {
    if g.cursor < |g.members| then Online(g.members, clients, Round(|g.members|, g.cursor)) else []
  }

  lemma {:induction false} PickIsFirst(g: Group, clients: set<Client>, i: nat)
    requires g.cursor < |g.members| && i <= |g.members|
    ensures var left := Online(g.members, clients, Round(|g.members|, g.cursor)[i..]);
      PickFrom(g, clients, i) == if left == [] then None else Some(left[0])
    decreases |g.members| - i
  {
    var round := Round(|g.members|, g.cursor);
    if i < |g.members| {
      SeatIs(|g.members|, g.cursor, i);
      assert round[i..][1..] == round[i + 1..] && round[i..][0] == round[i];
      PickIsFirst(g, clients, i + 1);
    }
  }

  /** The next one chosen is the first whose turn it is. */
  lemma PickTurn(g: Group, clients: set<Client>)
    requires WellKept(g)
    ensures Pick(g, clients) == if Turns(g, clients) == [] then None else Some(Turns(g, clients)[0])
  {
    if g.members != [] {
      PickIsFirst(g, clients, 0);
      var round := Round(|g.members|, g.cursor);
      assert round[0..] == round;
    }
  }

  lemma TurnsIn(g: Group, clients: set<Client>, p: nat)
    requires WellKept(g)
    ensures p in Turns(g, clients) <==> p < |g.members| && g.members[p] in clients
  {
    if g.members != [] {
      var n := |g.members|;
      var round := Round(n, g.cursor);
      OnlineIn(g.members, clients, round, p);
      if p < n {
        var i := if p >= g.cursor then p - g.cursor else p + n - g.cursor;
        assert round[i] == p;
      }
    }
  }

  /** Someone is chosen exactly when some member is connected, and then a connected member. */
  lemma ChosenIff(g: Group, clients: set<Client>)
    requires WellKept(g)
    ensures Chosen(g, clients).Some? <==> exists m :: m in g.members && m in clients
    ensures Chosen(g, clients).Some? ==> Chosen(g, clients).value in g.members && Chosen(g, clients).value in clients
    ensures WellKept(Advance(g, clients)) && Advance(g, clients).members == g.members
  {
    PickTurn(g, clients);
    if Turns(g, clients) != [] {
      TurnsIn(g, clients, Turns(g, clients)[0]);
    }
    if exists m :: m in g.members && m in clients {
      var m :| m in g.members && m in clients;
      var p :| 0 <= p < |g.members| && g.members[p] == m;
      TurnsIn(g, clients, p);
    }
  }

  lemma MovedInv(b: Registry, matched: set<GroupKey>)
    requires Inv(b)
    ensures Inv(MovedIn(b, matched))
  {
    var d := MovedIn(b, matched);
    forall g | g in b.groups ensures d.groups[g].members == b.groups[g].members && WellKept(d.groups[g]) {
      ChosenIff(b.groups[g], b.clients);
    }
  }

  lemma PublishInv(b: Registry, topic: Text)
    requires Inv(b)
    ensures Inv(Publish(b, topic))
  {
    MovedInv(b, Matched(Keys(b, topic)));
  }

  // --- fairness ----------------------------------------------------------

  function After(n: nat, at: nat): nat
    requires at < n
  {
    if at + 1 < n then at + 1 else 0
  }

  lemma SeatShift(n: nat, cursor: nat, i: nat, j: nat)
    requires cursor < n && i < n && j < n
    ensures Seat(n, After(n, Seat(n, cursor, i)), j) ==
      if j < n - 1 - i then Seat(n, cursor, i + 1 + j) else Seat(n, cursor, j - (n - 1 - i))
  {
  }

  /** One place past position `i` of the round, the round goes on from there. */
  lemma RoundShift(n: nat, cursor: nat, i: nat)
    requires cursor < n && i < n
    ensures Round(n, After(n, Seat(n, cursor, i))) == Round(n, cursor)[i + 1..] + Round(n, cursor)[..i + 1]
  {
    var r := Round(n, cursor);
    var a, b := Round(n, After(n, Seat(n, cursor, i))), r[i + 1..] + r[..i + 1];
    assert |a| == |b| == n;
    forall j | 0 <= j < n ensures a[j] == b[j] {
      SeatShift(n, cursor, i, j);
      if j < n - 1 - i {
        assert b[j] == r[i + 1 + j];
      } else {
        assert b[j] == r[j - (n - 1 - i)];
      }
    }
  }

  /** Where the first connected position sits in the round. */
  lemma {:induction false} FirstOnline(m: seq<Client>, clients: set<Client>, ps: seq<nat>) returns (i: nat)
    requires Online(m, clients, ps) != []
    ensures i < |ps| && ps[i] == Online(m, clients, ps)[0] && Online(m, clients, ps[..i]) == []
    ensures ps[i] < |m| && m[ps[i]] in clients
  {
    if ps[0] < |m| && m[ps[0]] in clients {
      i := 0;
    } else {
      var j := FirstOnline(m, clients, ps[1..]);
      i := j + 1;
      assert ps[..i][1..] == ps[1..][..j];
    }
  }

  /** Splitting the round at the first connected position. */
  lemma OnlineSplit(m: seq<Client>, clients: set<Client>, a: seq<nat>, at: nat, b: seq<nat>)
    requires Online(m, clients, a) == [] && at < |m| && m[at] in clients
    ensures Online(m, clients, a + ([at] + b)) == [at] + Online(m, clients, b)
    ensures Online(m, clients, b + (a + [at])) == Online(m, clients, b) + [at]
  {
    OnlineConcat(m, clients, a, [at] + b);
    OnlineConcat(m, clients, [at], b);
    OnlineConcat(m, clients, b, a + [at]);
    OnlineConcat(m, clients, a, [at]);
    assert [at][1..] == [] && Online(m, clients, [at]) == [at];
  }

  lemma AdvanceCursor(g: Group, clients: set<Client>, at: nat)
    requires Pick(g, clients) == Some(at) && at < |g.members|
    ensures Advance(g, clients) == Group(g.members, After(|g.members|, at))
  {
    ModOnce(at + 1, |g.members|);
  }

  lemma SplitAt(s: seq<nat>, i: nat)
    requires i < |s|
    ensures s == s[..i] + ([s[i]] + s[i + 1..]) && s[..i + 1] == s[..i] + [s[i]]
  {
  }

  lemma TurnsFrom(m: seq<Client>, cursor: nat, clients: set<Client>)
    requires cursor < |m|
    ensures Turns(Group(m, cursor), clients) == Online(m, clients, Round(|m|, cursor))
  {
  }

  /** Whoever was chosen goes to the end of the queue of turns. */
  lemma TurnsRotate(g: Group, clients: set<Client>)
    requires WellKept(g) && Turns(g, clients) != []
    ensures Turns(Advance(g, clients), clients) == Turns(g, clients)[1..] + [Turns(g, clients)[0]]
  {
    var n, m, round := |g.members|, g.members, Round(|g.members|, g.cursor);
    var i := FirstOnline(m, clients, round);
    var at, b := round[i], round[i + 1..];
    PickTurn(g, clients);
    AdvanceCursor(g, clients, at);
    RoundShift(n, g.cursor, i);
    SplitAt(round, i);
    OnlineSplit(m, clients, round[..i], at, b);
    TurnsFrom(m, After(n, at), clients);
    assert ([at] + Online(m, clients, b))[1..] == Online(m, clients, b);
  }

  // --- the queue ---------------------------------------------------------

  function MemberAt(m: seq<Client>, p: nat): Client { if p < |m| then m[p] else [] }

  function MembersAt(m: seq<Client>, ps: seq<nat>): (r: seq<Client>)
    ensures |r| == |ps|
  {
    seq(|ps|, i requires 0 <= i < |ps| => MemberAt(m, ps[i]))
  }

  /** Connected members in the order their turns come. */
  function Queue(g: Group, clients: set<Client>): seq<Client> { MembersAt(g.members, Turns(g, clients)) }

  function Rotated<T>(q: seq<T>): seq<T>
    requires q != []
  {
    q[1..] + [q[0]]
  }

  lemma MembersRotated(m: seq<Client>, ps: seq<nat>)
    requires ps != []
    ensures MembersAt(m, Rotated(ps)) == Rotated(MembersAt(m, ps))
  {
  }

  /** A choice serves the head of the queue, which then goes to its end. */
  lemma QueueServed(g: Group, clients: set<Client>)
    requires WellKept(g) && Queue(g, clients) != []
    ensures Chosen(g, clients) == Some(Queue(g, clients)[0])
    ensures Queue(Advance(g, clients), clients) == Rotated(Queue(g, clients))
  {
    var turns := Turns(g, clients);
    PickTurn(g, clients);
    TurnsIn(g, clients, turns[0]);
    TurnsRotate(g, clients);
    MembersRotated(g.members, turns);
  }

  ghost function Present(m: seq<Client>, clients: set<Client>): set<Client> {
    set c | c in m && c in clients
  }

  lemma QueueHas(g: Group, clients: set<Client>, c: Client)
    requires WellKept(g)
    ensures c in Queue(g, clients) <==> c in Present(g.members, clients)
  {
    var q, turns := Queue(g, clients), Turns(g, clients);
    if c in q {
      var i :| 0 <= i < |q| && q[i] == c;
      TurnsIn(g, clients, turns[i]);
    }
    if c in Present(g.members, clients) {
      var p :| 0 <= p < |g.members| && g.members[p] == c;
      TurnsIn(g, clients, p);
      var i :| 0 <= i < |turns| && turns[i] == p;
      assert q[i] == c;
    }
  }

  lemma TurnsDistinct(g: Group, clients: set<Client>)
    requires WellKept(g)
    ensures Distinct(Turns(g, clients))
  {
    if g.members != [] {
      RoundDistinct(|g.members|, g.cursor);
      OnlineDistinct(g.members, clients, Round(|g.members|, g.cursor));
    }
  }

  /** The queue holds every connected member once. */
  lemma QueueIs(g: Group, clients: set<Client>)
    requires WellKept(g)
    ensures Distinct(Queue(g, clients)) && |Queue(g, clients)| == |Present(g.members, clients)|
    ensures forall c :: c in Queue(g, clients) <==> c in Present(g.members, clients)
  {
    var q, turns := Queue(g, clients), Turns(g, clients);
    TurnsDistinct(g, clients);
    forall i, j | 0 <= i < j < |q| ensures q[i] != q[j] {
      TurnsIn(g, clients, turns[i]);
      TurnsIn(g, clients, turns[j]);
    }
    forall c ensures c in q <==> c in Present(g.members, clients) {
      QueueHas(g, clients, c);
    }
    DistinctCount(q);
    assert Elements(q) == Present(g.members, clients) by {
      forall c ensures c in Elements(q) <==> c in Present(g.members, clients) {
        ElementsIn(q, c);
      }
    }
  }

  lemma {:induction false} OnlineSame(m: seq<Client>, clients: set<Client>, others: set<Client>, ps: seq<nat>)
    requires Present(m, clients) == Present(m, others)
    ensures Online(m, clients, ps) == Online(m, others, ps)
  {
    if ps != [] {
      OnlineSame(m, clients, others, ps[1..]);
      if ps[0] < |m| {
        assert m[ps[0]] in Present(m, clients) <==> m[ps[0]] in clients;
        assert m[ps[0]] in Present(m, others) <==> m[ps[0]] in others;
      }
    }
  }

  /** Clients that are not members do not matter. */
  lemma QueueSame(g: Group, clients: set<Client>, others: set<Client>)
    requires Present(g.members, clients) == Present(g.members, others)
    ensures Queue(g, clients) == Queue(g, others)
  {
    if g.cursor < |g.members| {
      OnlineSame(g.members, clients, others, Round(|g.members|, g.cursor));
    }
  }

  /** Who is served when the head of the queue goes to its end each time. */
  function Cycle<T>(q: seq<T>, k: nat): seq<T>
    requires q != []
    decreases k
  {
    if k == 0 then [] else [q[0]] + Cycle(Rotated(q), k - 1)
  }

  /** How often place `j` of a queue of `n` comes up in `k` rounds. */
  function Share(k: nat, j: nat, n: nat): nat
    requires j < n
    decreases k
  {
    if k == 0 then 0 else if j == 0 then 1 + Share(k - 1, n - 1, n) else Share(k - 1, j - 1, n)
  }

  lemma {:induction false} ShareBounds(k: nat, j: nat, n: nat)
    requires j < n
    ensures n * Share(k, j, n) <= k + n - 1 - j < n * Share(k, j, n) + n
    decreases k
  {
    if k > 0 {
      if j == 0 {
        ShareBounds(k - 1, n - 1, n);
        assert n * (1 + Share(k - 1, n - 1, n)) == n + n * Share(k - 1, n - 1, n);
      } else {
        ShareBounds(k - 1, j - 1, n);
      }
    }
  }

  lemma RotatedDistinct<T>(q: seq<T>)
    requires Distinct(q) && q != []
    ensures Distinct(Rotated(q))
  {
  }

  lemma {:induction false} TimesInCycle<T>(q: seq<T>, k: nat, j: nat)
    requires Distinct(q) && j < |q|
    ensures Occurrences(Cycle(q, k), q[j]) == Share(k, j, |q|)
    decreases k
  {
    if k > 0 {
      var next := Rotated(q);
      var i := if j == 0 then |q| - 1 else j - 1;
      RotatedDistinct(q);
      TimesInCycle(next, k - 1, i);
      OccurrencesCons(q[0], Cycle(next, k - 1), q[j]);
      assert next[i] == q[j] && (q[0] == q[j] <==> j == 0);
    }
  }

  lemma RoundDistinct(n: nat, cursor: nat)
    requires cursor < n
    ensures Distinct(Round(n, cursor))
  {
  }

  /** `t` is the share of one in `n` of `k`, rounded down or up. */
  predicate Even(t: nat, k: nat, n: nat) { n > 0 && k / n <= t <= (k + n - 1) / n }

  lemma DivBounds(k: nat, n: nat)
    requires n > 0
    ensures n * (k / n) <= k < n * (k / n) + n
  {
    assert k == n * (k / n) + k % n;
  }

  lemma RoundedDown(k: nat, n: nat, t: nat, q: nat)
    requires n > 0 && k - n < n * t && n * q <= k
    ensures q <= t
  {
    if t < q {
      MulLe(n, t + 1, q);
    }
  }

  lemma RoundedUp(k: nat, n: nat, t: nat, c: nat)
    requires n > 0 && n * t < k + n && k <= n * c
    ensures t <= c
  {
    if c < t {
      MulLe(n, c + 1, t);
    }
  }

  lemma Rounded(k: nat, n: nat, t: nat)
    requires n > 0 && k - n < n * t < k + n
    ensures Even(t, k, n)
  {
    DivBounds(k, n);
    RoundedDown(k, n, t, k / n);
    DivBounds(k + n - 1, n);
    RoundedUp(k, n, t, (k + n - 1) / n);
  }

  /** Of `k` choices each of the `n` in the queue gets `k / n`, rounded down or up. */
  lemma FairCycle<T>(q: seq<T>, k: nat, c: T)
    requires Distinct(q) && c in q
    ensures Even(Occurrences(Cycle(q, k), c), k, |q|)
  {
    var j :| 0 <= j < |q| && q[j] == c;
    TimesInCycle(q, k, j);
    ShareBounds(k, j, |q|);
    Rounded(k, |q|, Share(k, j, |q|));
  }
}
