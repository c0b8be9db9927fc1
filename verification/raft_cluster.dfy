/**
 * A cluster of Raft nodes and every message ever sent, under the driver contract: a vote request
 * carries the candidate's own id and term, votes are counted from distinct voters of that term,
 * an election is finalized only while the node is still a candidate, and only a leader proposes
 * or replicates. Messages are never removed from `msgs`, so they may be lost, delayed, reordered
 * or delivered again; any node may crash between any two writes to its store and restart from it
 * (the log, held in memory, is then lost).
 */
module RaftCluster {
  import opened Common
  import opened RaftNode

  datatype Msg =
    | RequestVote(from: NodeId, term: nat, lastIndex: nat, lastTerm: nat)
    | Vote(from: NodeId, candidate: NodeId, term: nat)
    | Append(from: NodeId, to: NodeId, args: AppendArgs)
    | AppendReply(from: NodeId, to: NodeId, success: bool, matchIndex: nat)

  /** History of one won election: who led the term, by whose votes, and the longest log it reached. */
  datatype Leadership = Leadership(leader: NodeId, voters: set<NodeId>, log: seq<Entry>)

  datatype World = World(peers: seq<NodeId>, nodes: map<NodeId, Node>, msgs: set<Msg>, led: map<nat, Leadership>)

  /** The calls that write to the store. */
  datatype Call =
    | Electing
    | Voting(term: nat, candidate: NodeId, lastIndex: nat, lastTerm: nat)
    | Appending(args: AppendArgs)

  datatype Step =
    | StartElection(i: NodeId)
    | DeliverRequestVote(i: NodeId, m: Msg)
    | Finalize(i: NodeId, voters: set<NodeId>)
    | Propose(i: NodeId, data: seq<byte>)
    | SendAppend(i: NodeId, peer: NodeId)
    | DeliverAppend(i: NodeId, m: Msg)
    | DeliverReply(i: NodeId, m: Msg)
    | ApplyLog(i: NodeId)
    | Crash(i: NodeId, during: Call, writesDone: nat)

  function Init(peers: seq<NodeId>): World {
    World(peers, map id | id in peers :: NewNode(id, peers, Store(0, None)), {}, map[])
  }

  function Writes(n: Node, c: Call): seq<Write> {
    match c
    case Electing => BeginElectionWrites(n)
    case Voting(t, cand, li, lt) => RequestVoteWrites(n, t, cand, li, lt)
    case Appending(a) => AppendWrites(n, a.term)
  }

  predicate Enabled(w: World, s: Step) {
    && s.i in w.nodes
    && var n := w.nodes[s.i];
       match s
       case StartElection(_) => true
       case DeliverRequestVote(_, m) => m in w.msgs && m.RequestVote? && m.from != s.i
       case Finalize(_, voters) => n.role == Candidate && forall v :: v in voters ==> Vote(v, s.i, n.term) in w.msgs
       case Propose(_, _) => n.role == Leader
       case SendAppend(_, peer) => n.role == Leader && peer in w.nodes && peer != s.i
       case DeliverAppend(_, m) => m in w.msgs && m.Append? && m.to == s.i
       case DeliverReply(_, m) => m in w.msgs && m.AppendReply? && m.to == s.i
       case ApplyLog(_) => true
       case Crash(_, c, k) => k <= |Writes(n, c)|
  }

  function Put(w: World, n: Node, sent: set<Msg>): World {
    w.(nodes := w.nodes[n.id := n], msgs := w.msgs + sent)
  }

  function HandleReply(n: Node, m: Msg): Node
    requires m.AppendReply?
  {
    RecordPeerAck(if m.success then AdvanceNext(n, m.from, m.matchIndex + 1) else n, m.from, m.matchIndex)
  }

  function Receive(n: Node, a: AppendArgs): Node {
    HandleAppend(n, a.term, a.prevIndex, a.prevTerm, a.entries, a.commit)
  }

  function Reply(n: Node, m: Msg): Msg
    requires m.Append?
  {
    var ok := AcceptsAppend(n, m.args.term, m.args.prevIndex, m.args.prevTerm);
    AppendReply(n.id, m.from, ok, if ok then ReplyMatch(m.args) else 0)
  }

  /** Where an enabled step leaves the node that takes it. */
  function Moved(w: World, s: Step): Node
    requires Enabled(w, s)
  {
    var n := w.nodes[s.i];
    match s
    case StartElection(_) => BeginElection(n)
    case DeliverRequestVote(_, m) => HandleRequestVote(n, m.term, m.from, m.lastIndex, m.lastTerm)
    case Finalize(_, voters) => FinalizeElection(n, |voters|)
    case Propose(_, data) => LeaderAppend(n, data)
    case SendAppend(_, _) => n
    case DeliverAppend(_, m) => Receive(n, m.args)
    case DeliverReply(_, m) => HandleReply(n, m)
    case ApplyLog(_) => ApplyCommitted(n)
    case Crash(_, c, k) => NewNode(n.id, n.peers, PersistAll(n.store, Writes(n, c)[..k]))
  }

  function Sent(w: World, s: Step): set<Msg>
    requires Enabled(w, s)
  {
    var n := w.nodes[s.i];
    match s
    case StartElection(_) =>
      var (li, lt) := LastLog(n.log);
      {RequestVote(n.id, n.term + 1, li, lt), Vote(n.id, n.id, n.term + 1)}
    case DeliverRequestVote(_, m) =>
      if GrantsVote(n, m.term, m.from, m.lastIndex, m.lastTerm) then {Vote(n.id, m.from, m.term)} else {}
    case SendAppend(_, peer) => {Append(n.id, peer, AppendRequest(n, peer))}
    case DeliverAppend(_, m) => {Reply(n, m)}
    case _ => {}
  }

  predicate Wins(w: World, s: Step) {
    s.Finalize? && Enabled(w, s) && |s.voters| >= Majority(w.nodes[s.i])
  }

  /** The history: a won election opens its term's log, a leader's proposal extends it. */
  function Led(w: World, s: Step): map<nat, Leadership>
    requires Enabled(w, s)
  {
    var n := w.nodes[s.i];
    if Wins(w, s) then w.led[n.term := Leadership(n.id, s.voters, n.log)]
    else if s.Propose? && n.term in w.led then w.led[n.term := w.led[n.term].(log := LeaderAppend(n, s.data).log)]
    else w.led
  }

  /** One atomic step of one node; a step that is not enabled changes nothing. */
  function Next(w: World, s: Step): World {
    if Enabled(w, s) then Put(w, Moved(w, s), Sent(w, s)).(led := Led(w, s)) else w
  }

  function Run(w: World, steps: seq<Step>): World
    decreases steps
  {
    if steps == [] then w else Run(Next(w, steps[0]), steps[1..])
  }

  // --- the invariant -----------------------------------------------------

  ghost predicate Shape(w: World) {
    && Distinct(w.peers)
    && w.nodes.Keys == Elements(w.peers)
    && forall i :: i in w.nodes ==> w.nodes[i].id == i && w.nodes[i].peers == w.peers && Synced(w.nodes[i])
  }

  predicate Synced(n: Node) { n.store == Store(n.term, n.votedFor) }

  ghost predicate VotesHeld(w: World) {
    forall m :: m in w.msgs && m.Vote? ==>
      && m.from in w.nodes && m.term <= w.nodes[m.from].term
      && (m.term == w.nodes[m.from].term ==> w.nodes[m.from].votedFor == Some(m.candidate))
  }

  ghost predicate VotesUnique(w: World) {
    forall a, b :: a in w.msgs && b in w.msgs && a.Vote? && b.Vote? && a.from == b.from && a.term == b.term ==>
      a.candidate == b.candidate
  }

  ghost predicate Elected(w: World, t: nat, l: Leadership) {
    && l.voters <= Elements(w.peers) && 2 * |l.voters| > |w.peers|
    && (forall v :: v in l.voters ==> Vote(v, l.leader, t) in w.msgs)
    && l.leader in w.nodes && t <= w.nodes[l.leader].term
  }

  ghost predicate LedOk(w: World) { forall t :: t in w.led ==> Elected(w, t, w.led[t]) }

  ghost predicate RoleOk(led: map<nat, Leadership>, n: Node) {
    && (n.role == Leader ==> n.term in led && led[n.term].leader == n.id && led[n.term].log == n.log)
    && (n.role == Candidate && n.term in led ==> led[n.term].leader != n.id)
  }

  /** Every entry is numbered by its position and sits on the prefix its term's leader had there. */
  ghost predicate Grounded(led: map<nat, Leadership>, log: seq<Entry>) {
    forall k :: 0 <= k < |log| ==>
      && log[k].index == k + 1 && log[k].term in led && k < |led[log[k].term].log|
      && log[..k + 1] == led[log[k].term].log[..k + 1]
  }

  /** The request carries a slice of its term's leader's log. */
  ghost predicate Backed(led: map<nat, Leadership>, a: AppendArgs) {
    && a.term in led && a.prevIndex + |a.entries| <= |led[a.term].log|
    && a.entries == led[a.term].log[a.prevIndex..a.prevIndex + |a.entries|]
    && (a.prevIndex > 0 ==> a.prevTerm == led[a.term].log[a.prevIndex - 1].term)
  }

  ghost predicate LogsOk(w: World) {
    && (forall t :: t in w.led ==> Grounded(w.led, w.led[t].log))
    && (forall i :: i in w.nodes ==> Grounded(w.led, w.nodes[i].log) && RoleOk(w.led, w.nodes[i]))
    && (forall m :: m in w.msgs && m.Append? ==> Backed(w.led, m.args))
  }

  ghost predicate Inv(w: World) {
    Shape(w) && VotesHeld(w) && VotesUnique(w) && LedOk(w) && LogsOk(w)
  }

  // --- elections ---------------------------------------------------------

  /** Two elections won in one term were won by one node. */
  lemma ElectedOnce(w: World, t: nat, a: Leadership, b: Leadership)
    requires Shape(w) && VotesUnique(w) && Elected(w, t, a) && Elected(w, t, b)
    ensures a.leader == b.leader
  {
    DistinctCount(w.peers);
    var v := QuorumsMeet(a.voters, b.voters, Elements(w.peers));
    assert Vote(v, a.leader, t) in w.msgs && Vote(v, b.leader, t) in w.msgs;
  }

  /** What a step may do to one node's durable vote: terms grow, and the vote changes only with the term or from none. */
  predicate VoteKept(before: Node, after: Node) {
    && before.term <= after.term
    && (before.term == after.term && before.votedFor.Some? ==> after.votedFor == before.votedFor)
  }

  /** A crash inside any call, after any number of its writes, keeps the vote. */
  lemma CrashKeepsVote(n: Node, c: Call, k: nat)
    requires Synced(n) && k <= |Writes(n, c)|
    ensures VoteKept(n, NewNode(n.id, n.peers, PersistAll(n.store, Writes(n, c)[..k])))
  {
    PersistFew(n.store, Writes(n, c)[..k]);
  }

  /** The votes survive a step that keeps the node's vote and adds at most its own current one. */
  lemma VotesStep(w: World, moved: Node, sent: set<Msg>)
    requires Shape(w) && VotesHeld(w) && VotesUnique(w)
    requires moved.id in w.nodes && VoteKept(w.nodes[moved.id], moved)
    requires forall m :: m in sent && m.Vote? ==> m.from == moved.id && m.term == moved.term && moved.votedFor == Some(m.candidate)
    requires forall m :: m in sent && m.Vote? ==> moved.term > w.nodes[moved.id].term || w.nodes[moved.id].votedFor.None? || w.nodes[moved.id].votedFor == Some(m.candidate)
    ensures VotesHeld(Put(w, moved, sent)) && VotesUnique(Put(w, moved, sent))
  {
    var wNow := Put(w, moved, sent);
    forall a, b | a in wNow.msgs && b in wNow.msgs && a.Vote? && b.Vote? && a.from == b.from && a.term == b.term
      ensures a.candidate == b.candidate
    {
      if a in w.msgs && b in w.msgs {
      } else {
        assert a.from == moved.id && a.term == moved.term;
      }
    }
  }

  /** A won election stays won while terms and messages only grow. */
  lemma ElectedKept(w: World, moved: Node, sent: set<Msg>, ledNow: map<nat, Leadership>, t: nat, l: Leadership)
    requires Elected(w, t, l) && moved.id in w.nodes && w.nodes[moved.id].term <= moved.term
    ensures Elected(Put(w, moved, sent).(led := ledNow), t, l)
  {
  }

  lemma LedKept(w: World, moved: Node, sent: set<Msg>, ledNow: map<nat, Leadership>)
    requires moved.id in w.nodes && w.nodes[moved.id].term <= moved.term
    requires forall t :: t in ledNow ==> Elected(w, t, ledNow[t])
    ensures LedOk(Put(w, moved, sent).(led := ledNow))
  {
    forall t | t in ledNow ensures Elected(Put(w, moved, sent).(led := ledNow), t, ledNow[t]) {
      ElectedKept(w, moved, sent, ledNow, t, ledNow[t]);
    }
  }

  // --- logs --------------------------------------------------------------

  /** `ledNow` only adds leaderships and extends the logs of known ones. */
  ghost predicate Extends(led: map<nat, Leadership>, ledNow: map<nat, Leadership>) {
    forall t :: t in led ==> t in ledNow && led[t].leader == ledNow[t].leader && led[t].log <= ledNow[t].log
  }

  lemma GroundedExtends(led: map<nat, Leadership>, ledNow: map<nat, Leadership>, log: seq<Entry>)
    requires Grounded(led, log) && Extends(led, ledNow)
    ensures Grounded(ledNow, log)
  {
    forall k | 0 <= k < |log|
      ensures log[k].term in ledNow && k < |ledNow[log[k].term].log| && log[..k + 1] == ledNow[log[k].term].log[..k + 1]
    {
      var t := log[k].term;
      assert led[t].log == ledNow[t].log[..|led[t].log|];
      assert ledNow[t].log[..k + 1] == led[t].log[..k + 1];
    }
  }

  lemma GroundedPrefix(led: map<nat, Leadership>, log: seq<Entry>, n: nat)
    requires Grounded(led, log) && n <= |log|
    ensures Grounded(led, log[..n])
  {
    forall k | 0 <= k < n
      ensures log[..n][k].index == k + 1 && log[..n][..k + 1] == led[log[k].term].log[..k + 1]
    {
      assert log[..n][..k + 1] == log[..k + 1];
    }
  }

  /** Grounded logs with the same term at a position agree up to it. */
  lemma GroundedMatch(led: map<nat, Leadership>, a: seq<Entry>, b: seq<Entry>, k: nat)
    requires Grounded(led, a) && Grounded(led, b) && k < |a| && k < |b| && a[k].term == b[k].term
    ensures a[..k + 1] == b[..k + 1]
  {
    assert a[..k + 1] == led[a[k].term].log[..k + 1];
  }

  /** Where a slice of `l` and the log agree by term, they agree in full. */
  lemma AgreeingPrefix(led: map<nat, Leadership>, log: seq<Entry>, l: seq<Entry>, p: nat, es: seq<Entry>, prevTerm: nat)
    requires Grounded(led, log) && Grounded(led, l) && p + |es| <= |l| && es == l[p..p + |es|]
    requires p > 0 ==> prevTerm == l[p - 1].term
    requires PrevOk(log, p, prevTerm)
    ensures var k := p + Agreeing(log, p, es); k <= |log| && log[..k] == l[..k]
  {
    var c := Agreeing(log, p, es);
    if p + c > 0 {
      assert c > 0 ==> log[p + (c - 1)].term == es[c - 1].term == l[p + c - 1].term;
      GroundedMatch(led, log, l, p + c - 1);
    }
  }

  /** A log after a merge: it starts with `l[..e]`, and is that or the log before. */
  ghost predicate Merged(log: seq<Entry>, logNow: seq<Entry>, l: seq<Entry>, e: nat) {
    e <= |l| && |logNow| >= e && logNow[..e] == l[..e] && (logNow == log || logNow == l[..e])
  }

  lemma SliceTaken(log: seq<Entry>, l: seq<Entry>, p: nat, es: seq<Entry>, c: nat)
    requires p + |es| <= |l| && es == l[p..p + |es|] && c <= |es| && p + c <= |log| && log[..p + c] == l[..p + c]
    ensures log[..p + c] + es[c..] == l[..p + |es|]
  {
    assert es[c..] == l[p + c..p + |es|];
  }

  lemma MergeSlice(log: seq<Entry>, l: seq<Entry>, p: nat, es: seq<Entry>)
    requires p + |es| <= |l| && p <= |log| && es == l[p..p + |es|]
    requires var k := p + Agreeing(log, p, es); log[..k] == l[..k]
    ensures Merged(log, Merge(log, p, es), l, p + |es|)
  {
    var c := Agreeing(log, p, es);
    if c < |es| {
      SliceTaken(log, l, p, es, c);
      assert l[..p + |es|][..p + |es|] == l[..p + |es|];
    }
  }

  predicate Numbered(log: seq<Entry>, base: nat) {
    forall k :: 0 <= k < |log| ==> log[k].index == base + k + 1
  }

  lemma {:induction false} EntriesFromDrops(log: seq<Entry>, start: nat, base: nat) returns (d: nat)
    requires Numbered(log, base)
    ensures d <= |log| && EntriesFrom(log, start) == log[d..]
    decreases log
  {
    if log == [] || log[0].index >= start {
      d := 0;
    } else {
      assert forall k :: 0 <= k < |log[1..]| ==> log[1..][k] == log[k + 1];
      d := EntriesFromDrops(log[1..], start, base + 1);
      assert log[1..][d..] == log[d + 1..];
      d := d + 1;
    }
  }

  lemma {:induction false} TermAtIs(log: seq<Entry>, idx: nat, base: nat)
    requires Numbered(log, base) && base < idx <= base + |log|
    ensures TermAt(log, idx) == log[idx - base - 1].term
    decreases log
  {
    assert log[0].index == base + 1;
    if idx != base + 1 {
      assert forall k :: 0 <= k < |log[1..]| ==> log[1..][k] == log[k + 1];
      TermAtIs(log[1..], idx, base + 1);
    }
  }

  /** A leader's request is backed by its log and reaches to its end. */
  lemma RequestBacked(led: map<nat, Leadership>, n: Node, peer: NodeId)
    requires n.term in led && led[n.term].log == n.log && Numbered(n.log, 0)
    ensures Backed(led, AppendRequest(n, peer))
    ensures var a := AppendRequest(n, peer); a.prevIndex + |a.entries| == |n.log| == ReplyMatch(a)
  {
    var start := if NextIndexOf(n, peer) < 1 then 1 else NextIndexOf(n, peer);
    var d := EntriesFromDrops(n.log, start, 0);
    if d < |n.log| && d > 0 {
      TermAtIs(n.log, d, 0);
    }
  }

  /** Nodes and messages stay sound when the history only extends, node `moved` is sound and what it sent is backed. */
  lemma LogsStep(w: World, moved: Node, sent: set<Msg>, ledNow: map<nat, Leadership>)
    requires LogsOk(w) && moved.id in w.nodes
    requires forall i :: i in w.nodes ==> w.nodes[i].id == i
    requires Extends(w.led, ledNow) && (forall t :: t in ledNow ==> Grounded(ledNow, ledNow[t].log))
    requires Grounded(ledNow, moved.log) && RoleOk(ledNow, moved)
    requires forall i :: i in w.nodes && i != moved.id ==> RoleOk(ledNow, w.nodes[i])
    requires forall m :: m in sent && m.Append? ==> Backed(ledNow, m.args)
    ensures LogsOk(Put(w, moved, sent).(led := ledNow))
  {
    var wNow := Put(w, moved, sent).(led := ledNow);
    forall i | i in wNow.nodes ensures Grounded(ledNow, wNow.nodes[i].log) && RoleOk(ledNow, wNow.nodes[i]) {
      if i != moved.id {
        GroundedExtends(w.led, ledNow, w.nodes[i].log);
      }
    }
    forall m | m in wNow.msgs && m.Append? ensures Backed(ledNow, m.args) {
      if m in w.msgs {
        var l, lNow := w.led[m.args.term].log, ledNow[m.args.term].log;
        assert l == lNow[..|l|];
        assert Backed(w.led, m.args);
      }
    }
  }

  // --- every step keeps the invariant ------------------------------------

  lemma InitInv(peers: seq<NodeId>)
    requires Distinct(peers)
    ensures Inv(Init(peers))
  {
    assert Init(peers).nodes.Keys == Elements(peers);
  }

  /** What a step that leaves the leadership history alone must see to. */
  ghost predicate PlainMove(w: World, moved: Node, sent: set<Msg>) {
    && moved.id in w.nodes && moved.peers == w.peers && Synced(moved) && VoteKept(w.nodes[moved.id], moved)
    && (forall m :: m in sent && m.Vote? ==>
      && m.from == moved.id && m.term == moved.term && moved.votedFor == Some(m.candidate)
      && (moved.term > w.nodes[moved.id].term || w.nodes[moved.id].votedFor.None? || w.nodes[moved.id].votedFor == Some(m.candidate)))
    && Grounded(w.led, moved.log) && RoleOk(w.led, moved)
    && (forall m :: m in sent && m.Append? ==> Backed(w.led, m.args))
  }

  lemma PlainStep(w: World, moved: Node, sent: set<Msg>)
    requires Inv(w) && PlainMove(w, moved, sent)
    ensures Inv(Put(w, moved, sent).(led := w.led))
  {
    VotesStep(w, moved, sent);
    LedKept(w, moved, sent, w.led);
    LogsStep(w, moved, sent, w.led);
  }

  /** Only indices moved. */
  predicate Quiet(n: Node, moved: Node) {
    n == moved.(commit := n.commit, applied := n.applied, nextIndex := n.nextIndex, matchIndex := n.matchIndex)
  }

  lemma QuietMove(w: World, moved: Node)
    requires Shape(w) && LogsOk(w) && moved.id in w.nodes && Quiet(w.nodes[moved.id], moved)
    ensures PlainMove(w, moved, {})
  {
  }

  lemma StartElectionMove(w: World, i: NodeId)
    requires Shape(w) && LedOk(w) && LogsOk(w) && Enabled(w, StartElection(i))
    ensures PlainMove(w, Moved(w, StartElection(i)), Sent(w, StartElection(i)))
  {
    var n := w.nodes[i];
    PersistFew(n.store, BeginElectionWrites(n));
    if n.term + 1 in w.led {
      assert Elected(w, n.term + 1, w.led[n.term + 1]);
    }
  }

  lemma RequestVoteMove(w: World, i: NodeId, m: Msg)
    requires Shape(w) && LogsOk(w) && Enabled(w, DeliverRequestVote(i, m))
    ensures PlainMove(w, Moved(w, DeliverRequestVote(i, m)), Sent(w, DeliverRequestVote(i, m)))
  {
    PersistFew(w.nodes[i].store, RequestVoteWrites(w.nodes[i], m.term, m.from, m.lastIndex, m.lastTerm));
  }

  /** A candidate that finalizes with a majority has won its term, and nobody had won it before. */
  lemma WinsOnce(w: World, i: NodeId, voters: set<NodeId>)
    requires Inv(w) && Wins(w, Finalize(i, voters))
    ensures Elected(w, w.nodes[i].term, Leadership(i, voters, w.nodes[i].log))
    ensures w.nodes[i].term !in w.led
  {
    var n := w.nodes[i];
    var won := Leadership(i, voters, n.log);
    forall v | v in voters ensures v in Elements(w.peers) {
      assert Vote(v, i, n.term) in w.msgs;
    }
    if n.term in w.led {
      assert RoleOk(w.led, n);
      ElectedOnce(w, n.term, won, w.led[n.term]);
    }
  }

  /** The history after a step that changes it: it only grows, and every leadership in it was won. */
  ghost predicate HistoryOk(w: World, ledNow: map<nat, Leadership>) {
    Extends(w.led, ledNow) && forall t :: t in ledNow ==> Grounded(ledNow, ledNow[t].log) && Elected(w, t, ledNow[t])
  }

  ghost predicate RolesOk(w: World, moved: Node, ledNow: map<nat, Leadership>) {
    RoleOk(ledNow, moved) && Grounded(ledNow, moved.log) && forall i :: i in w.nodes && i != moved.id ==> RoleOk(ledNow, w.nodes[i])
  }

  /** Steps that change the leadership history and one node, but send nothing. */
  lemma LeaderStep(w: World, moved: Node, ledNow: map<nat, Leadership>)
    requires Inv(w) && moved.id in w.nodes && moved.peers == w.peers && moved.store == w.nodes[moved.id].store
    requires moved.term == w.nodes[moved.id].term && moved.votedFor == w.nodes[moved.id].votedFor
    requires HistoryOk(w, ledNow) && RolesOk(w, moved, ledNow)
    ensures Inv(Put(w, moved, {}).(led := ledNow))
  {
    VotesStep(w, moved, {});
    LedKept(w, moved, {}, ledNow);
    LogsStep(w, moved, {}, ledNow);
  }

  lemma OpenedHistory(w: World, t: nat, l: Leadership)
    requires LedOk(w) && LogsOk(w) && t !in w.led && Grounded(w.led, l.log) && Elected(w, t, l)
    ensures HistoryOk(w, w.led[t := l])
  {
    var ledNow := w.led[t := l];
    forall u | u in ledNow ensures Grounded(ledNow, ledNow[u].log) {
      GroundedExtends(w.led, ledNow, ledNow[u].log);
    }
  }

  lemma WonHistory(w: World, i: NodeId, voters: set<NodeId>)
    requires Inv(w) && Wins(w, Finalize(i, voters))
    ensures HistoryOk(w, Led(w, Finalize(i, voters)))
  {
    var n := w.nodes[i];
    WinsOnce(w, i, voters);
    OpenedHistory(w, n.term, Leadership(i, voters, n.log));
  }

  lemma OthersRole(led: map<nat, Leadership>, t: nat, l: Leadership, n: Node)
    requires RoleOk(led, n) && t !in led && n.id != l.leader
    ensures RoleOk(led[t := l], n)
  {
  }

  lemma WinnersRole(led: map<nat, Leadership>, n: Node, voters: set<NodeId>)
    requires |voters| >= Majority(n)
    ensures RoleOk(led[n.term := Leadership(n.id, voters, n.log)], FinalizeElection(n, |voters|))
  {
  }

  lemma WonRoles(w: World, i: NodeId, voters: set<NodeId>, ledNow: map<nat, Leadership>)
    requires Shape(w) && LogsOk(w) && Wins(w, Finalize(i, voters)) && w.nodes[i].term !in w.led
    requires ledNow == Led(w, Finalize(i, voters)) && HistoryOk(w, ledNow)
    ensures RolesOk(w, Moved(w, Finalize(i, voters)), ledNow)
  {
    var n := w.nodes[i];
    WinnersRole(w.led, n, voters);
    assert Grounded(ledNow, ledNow[n.term].log);
    forall j | j in w.nodes && j != i ensures RoleOk(ledNow, w.nodes[j]) {
      OthersRole(w.led, n.term, Leadership(i, voters, n.log), w.nodes[j]);
    }
  }

  lemma WinInv(w: World, i: NodeId, voters: set<NodeId>)
    requires Inv(w) && Wins(w, Finalize(i, voters))
    ensures Inv(Next(w, Finalize(i, voters)))
  {
    WinsOnce(w, i, voters);
    WonHistory(w, i, voters);
    WonRoles(w, i, voters, Led(w, Finalize(i, voters)));
    LeaderStep(w, Moved(w, Finalize(i, voters)), Led(w, Finalize(i, voters)));
  }

  lemma ProposedHistory(w: World, i: NodeId, data: seq<byte>)
    requires Inv(w) && Enabled(w, Propose(i, data))
    ensures HistoryOk(w, Led(w, Propose(i, data)))
  {
    var ledNow := Led(w, Propose(i, data));
    assert RoleOk(w.led, w.nodes[i]);
    ProposeExtends(w.led, w.nodes[i], data);
    forall t | t in ledNow ensures Elected(w, t, ledNow[t]) {
      assert Elected(w, t, w.led[t]);
    }
  }

  lemma ProposedRoles(w: World, i: NodeId, data: seq<byte>)
    requires Shape(w) && LogsOk(w) && Enabled(w, Propose(i, data)) && HistoryOk(w, Led(w, Propose(i, data)))
    ensures RolesOk(w, Moved(w, Propose(i, data)), Led(w, Propose(i, data)))
  {
    var ledNow := Led(w, Propose(i, data));
    assert RoleOk(w.led, w.nodes[i]);
    assert Grounded(ledNow, ledNow[w.nodes[i].term].log);
    forall j | j in w.nodes && j != i ensures RoleOk(ledNow, w.nodes[j]) {
      assert RoleOk(w.led, w.nodes[j]);
    }
  }

  lemma ProposeInv(w: World, i: NodeId, data: seq<byte>)
    requires Inv(w) && Enabled(w, Propose(i, data))
    ensures Inv(Next(w, Propose(i, data)))
  {
    ProposedHistory(w, i, data);
    ProposedRoles(w, i, data);
    LeaderStep(w, Moved(w, Propose(i, data)), Led(w, Propose(i, data)));
  }

  lemma ProposeExtends(led: map<nat, Leadership>, n: Node, data: seq<byte>)
    requires n.term in led && led[n.term].log == n.log && forall t :: t in led ==> Grounded(led, led[t].log)
    ensures var logNow := LeaderAppend(n, data).log;
      var ledNow := led[n.term := led[n.term].(log := logNow)];
      Extends(led, ledNow) && Grounded(ledNow, logNow) && forall t :: t in ledNow ==> Grounded(ledNow, ledNow[t].log)
  {
    var logNow := LeaderAppend(n, data).log;
    var ledNow := led[n.term := led[n.term].(log := logNow)];
    assert n.log == logNow[..|n.log|];
    forall t | t in led ensures Grounded(ledNow, led[t].log) {
      GroundedExtends(led, ledNow, led[t].log);
    }
    GroundedAppend(ledNow, n.log, logNow[|n.log|]);
  }

  lemma GroundedAppend(led: map<nat, Leadership>, log: seq<Entry>, e: Entry)
    requires Grounded(led, log) && e.index == |log| + 1
    requires e.term in led && led[e.term].log == log + [e]
    ensures Grounded(led, log + [e])
  {
    var l := log + [e];
    forall k | 0 <= k < |l|
      ensures l[k].index == k + 1 && l[k].term in led && k < |led[l[k].term].log|
      ensures l[..k + 1] == led[l[k].term].log[..k + 1]
    {
      if k < |log| {
        assert l[..k + 1] == log[..k + 1];
      }
    }
  }

  lemma SendAppendMove(w: World, i: NodeId, peer: NodeId)
    requires Shape(w) && LogsOk(w) && Enabled(w, SendAppend(i, peer))
    ensures PlainMove(w, Moved(w, SendAppend(i, peer)), Sent(w, SendAppend(i, peer)))
  {
    RequestBacked(w.led, w.nodes[i], peer);
  }

  lemma AcceptedMerge(led: map<nat, Leadership>, log: seq<Entry>, l: seq<Entry>, a: AppendArgs)
    requires Grounded(led, log) && Grounded(led, l) && PrevOk(log, a.prevIndex, a.prevTerm)
    requires a.prevIndex + |a.entries| <= |l| && a.entries == l[a.prevIndex..a.prevIndex + |a.entries|]
    requires a.prevIndex > 0 ==> a.prevTerm == l[a.prevIndex - 1].term
    ensures Merged(log, Merge(log, a.prevIndex, a.entries), l, a.prevIndex + |a.entries|)
  {
    AgreeingPrefix(led, log, l, a.prevIndex, a.entries, a.prevTerm);
    MergeSlice(log, l, a.prevIndex, a.entries);
  }

  lemma MergedGrounded(led: map<nat, Leadership>, log: seq<Entry>, logNow: seq<Entry>, l: seq<Entry>, e: nat)
    requires Merged(log, logNow, l, e) && Grounded(led, log) && Grounded(led, l)
    ensures Grounded(led, logNow)
  {
    GroundedPrefix(led, l, e);
  }

  /** What a node that accepts a request ends up with. */
  lemma AcceptedAppend(led: map<nat, Leadership>, n: Node, a: AppendArgs)
    requires Backed(led, a) && Grounded(led, n.log) && Grounded(led, led[a.term].log)
    requires AcceptsAppend(n, a.term, a.prevIndex, a.prevTerm)
    ensures Merged(n.log, Receive(n, a).log, led[a.term].log, a.prevIndex + |a.entries|) && Grounded(led, Receive(n, a).log)
  {
    AcceptedMerge(led, n.log, led[a.term].log, a);
    MergedGrounded(led, n.log, Receive(n, a).log, led[a.term].log, a.prevIndex + |a.entries|);
  }

  /** A leader only ever accepts a request of its own term, and has its entries already. */
  lemma OwnRequest(led: map<nat, Leadership>, n: Node, a: AppendArgs)
    requires Backed(led, a) && RoleOk(led, n) && n.role == Leader && n.term == a.term
    requires AcceptsAppend(n, a.term, a.prevIndex, a.prevTerm)
    ensures Receive(n, a).log == n.log
  {
    assert Agreeing(n.log, a.prevIndex, a.entries) == |a.entries|;
  }

  lemma ReceiveMove(led: map<nat, Leadership>, n: Node, a: AppendArgs)
    requires Backed(led, a) && Grounded(led, n.log) && Grounded(led, led[a.term].log) && RoleOk(led, n)
    ensures Grounded(led, Receive(n, a).log) && RoleOk(led, Receive(n, a))
  {
    if AcceptsAppend(n, a.term, a.prevIndex, a.prevTerm) {
      AcceptedAppend(led, n, a);
      if n.role == Leader && n.term == a.term {
        OwnRequest(led, n, a);
      }
    }
  }

  lemma DeliverAppendMove(w: World, i: NodeId, m: Msg)
    requires Shape(w) && LogsOk(w) && Enabled(w, DeliverAppend(i, m))
    ensures PlainMove(w, Moved(w, DeliverAppend(i, m)), Sent(w, DeliverAppend(i, m)))
  {
    var n := w.nodes[i];
    assert Backed(w.led, m.args);
    ReceiveMove(w.led, n, m.args);
    PersistFew(n.store, AppendWrites(n, m.args.term));
  }

  lemma CrashMove(w: World, i: NodeId, c: Call, k: nat)
    requires Shape(w) && LogsOk(w) && Enabled(w, Crash(i, c, k))
    ensures PlainMove(w, Moved(w, Crash(i, c, k)), Sent(w, Crash(i, c, k)))
  {
    CrashKeepsVote(w.nodes[i], c, k);
  }

  /** Every step but a won election and a proposal leaves the history alone. */
  lemma PlainSteps(w: World, s: Step)
    requires Inv(w) && Enabled(w, s) && !Wins(w, s) && !s.Propose?
    ensures PlainMove(w, Moved(w, s), Sent(w, s))
  {
    match s
    case StartElection(i) => StartElectionMove(w, i);
    case DeliverRequestVote(i, m) => RequestVoteMove(w, i, m);
    case Finalize(_, _) => QuietMove(w, Moved(w, s));
    case SendAppend(i, peer) => SendAppendMove(w, i, peer);
    case DeliverAppend(i, m) => DeliverAppendMove(w, i, m);
    case DeliverReply(_, _) => QuietMove(w, Moved(w, s));
    case ApplyLog(_) => QuietMove(w, Moved(w, s));
    case Crash(i, c, k) => CrashMove(w, i, c, k);
  }

  lemma StepInv(w: World, s: Step)
    requires Inv(w)
    ensures Inv(Next(w, s))
  {
    if Wins(w, s) {
      WinInv(w, s.i, s.voters);
    } else if Enabled(w, s) && s.Propose? {
      ProposeInv(w, s.i, s.data);
    } else if Enabled(w, s) {
      PlainSteps(w, s);
      PlainStep(w, Moved(w, s), Sent(w, s));
    }
  }

  lemma {:induction false} RunInv(w: World, steps: seq<Step>)
    requires Inv(w)
    ensures Inv(Run(w, steps))
    decreases steps
  {
    if steps != [] {
      StepInv(w, steps[0]);
      RunInv(Next(w, steps[0]), steps[1..]);
    }
  }

  // --- what holds in every run -------------------------------------------

  lemma MovedTerm(w: World, s: Step)
    requires Shape(w) && Enabled(w, s)
    ensures Moved(w, s).id == s.i && w.nodes[s.i].term <= Moved(w, s).term
  {
    if s.Crash? {
      CrashKeepsVote(w.nodes[s.i], s.during, s.writesDone);
    }
  }

  lemma StepKeepsTerms(w: World, s: Step, i: NodeId)
    requires Shape(w) && i in w.nodes
    ensures i in Next(w, s).nodes && w.nodes[i].term <= Next(w, s).nodes[i].term
  {
    if Enabled(w, s) {
      MovedTerm(w, s);
    }
  }

  lemma StepExtends(w: World, s: Step)
    requires Inv(w)
    ensures Extends(w.led, Next(w, s).led)
  {
    if Wins(w, s) {
      WonHistory(w, s.i, s.voters);
    } else if Enabled(w, s) && s.Propose? {
      ProposedHistory(w, s.i, s.data);
    }
  }

  lemma ExtendsTransitive(a: map<nat, Leadership>, b: map<nat, Leadership>, c: map<nat, Leadership>)
    requires Extends(a, b) && Extends(b, c)
    ensures Extends(a, c)
  {
  }

  /** Later states keep every leadership and every node's term. */
  lemma {:induction false} RunMonotone(w: World, steps: seq<Step>)
    requires Inv(w)
    ensures Extends(w.led, Run(w, steps).led)
    ensures forall i :: i in w.nodes ==> i in Run(w, steps).nodes && w.nodes[i].term <= Run(w, steps).nodes[i].term
    decreases steps
  {
    if steps != [] {
      var w1 := Next(w, steps[0]);
      StepInv(w, steps[0]);
      StepExtends(w, steps[0]);
      RunMonotone(w1, steps[1..]);
      ExtendsTransitive(w.led, w1.led, Run(w, steps).led);
      forall i | i in w.nodes ensures i in Run(w, steps).nodes && w.nodes[i].term <= Run(w, steps).nodes[i].term {
        StepKeepsTerms(w, steps[0], i);
      }
    }
  }

  /**
   * Election safety: whoever leads a term at one moment of a run and whoever leads it at the same
   * or any later moment are one node.
   */
  lemma ElectionSafety(peers: seq<NodeId>, before: seq<Step>, after: seq<Step>, i: NodeId, j: NodeId)
    requires Distinct(peers)
    requires var w := Run(Init(peers), before); i in w.nodes && w.nodes[i].role == Leader
    requires var w := Run(Run(Init(peers), before), after); j in w.nodes && w.nodes[j].role == Leader
    requires Run(Init(peers), before).nodes[i].term == Run(Run(Init(peers), before), after).nodes[j].term
    ensures i == j
  {
    InitInv(peers);
    RunInv(Init(peers), before);
    var w := Run(Init(peers), before);
    RunInv(w, after);
    RunMonotone(w, after);
    assert w.led[w.nodes[i].term].leader == i;
  }

  /** Log matching: nodes whose logs hold the same term at an index hold identical logs up to it. */
  lemma LogMatching(peers: seq<NodeId>, steps: seq<Step>, i: NodeId, j: NodeId, k: nat)
    requires Distinct(peers)
    requires var w := Run(Init(peers), steps); i in w.nodes && j in w.nodes
    requires var w := Run(Init(peers), steps); k < |w.nodes[i].log| && k < |w.nodes[j].log|
    requires var w := Run(Init(peers), steps); w.nodes[i].log[k].term == w.nodes[j].log[k].term
    ensures var w := Run(Init(peers), steps); w.nodes[i].log[..k + 1] == w.nodes[j].log[..k + 1]
  {
    InitInv(peers);
    RunInv(Init(peers), steps);
    var w := Run(Init(peers), steps);
    GroundedMatch(w.led, w.nodes[i].log, w.nodes[j].log, k);
  }

  /** A node votes for at most one candidate in a term, whatever crashes fall between its store writes. */
  lemma VoteUniqueness(peers: seq<NodeId>, steps: seq<Step>, voter: NodeId, term: nat, c: NodeId, d: NodeId)
    requires Distinct(peers)
    requires Vote(voter, c, term) in Run(Init(peers), steps).msgs
    requires Vote(voter, d, term) in Run(Init(peers), steps).msgs
    ensures c == d
  {
    InitInv(peers);
    RunInv(Init(peers), steps);
  }

  /** No node's term ever decreases, crashes included. */
  lemma TermsNeverDecrease(peers: seq<NodeId>, before: seq<Step>, after: seq<Step>, i: NodeId)
    requires Distinct(peers) && i in peers
    ensures var w := Run(Init(peers), before);
      var wNow := Run(w, after);
      i in w.nodes && i in wNow.nodes && w.nodes[i].term <= wNow.nodes[i].term
  {
    InitInv(peers);
    RunInv(Init(peers), before);
    RunMonotone(Init(peers), before);
    RunMonotone(Run(Init(peers), before), after);
  }

  /** What `i` holds after it accepts request `a` of the leader of `a.term`, whose log is `l`. */
  ghost predicate Agrees(before: Node, after: Node, a: AppendArgs, l: seq<Entry>) {
    var k := ReplyMatch(a);
    && k <= |after.log| && k <= |l| && after.log[..k] == l[..k]
    && (a.commit <= a.prevIndex + |a.entries| && after.commit != before.commit ==>
          after.commit <= |after.log| && after.commit <= |l| && after.log[..after.commit] == l[..after.commit])
  }

  lemma AgreesFrom(n: Node, a: AppendArgs, l: seq<Entry>)
    requires var e := a.prevIndex + |a.entries|;
      && e == ReplyMatch(a) && e <= |l| && e <= |Receive(n, a).log| && Receive(n, a).log[..e] == l[..e]
    ensures Agrees(n, Receive(n, a), a, l)
  {
    var moved, e := Receive(n, a), a.prevIndex + |a.entries|;
    var c := moved.commit;
    if a.commit <= e && c != n.commit {
      assert moved.log[..c] == moved.log[..e][..c] && l[..c] == l[..e][..c];
    }
  }

  lemma BackedReplyMatch(led: map<nat, Leadership>, a: AppendArgs)
    requires Backed(led, a) && Grounded(led, led[a.term].log)
    ensures ReplyMatch(a) == a.prevIndex + |a.entries|
  {
    if a.entries != [] {
      var e := a.prevIndex + |a.entries|;
      assert a.entries[|a.entries| - 1] == led[a.term].log[e - 1];
    }
  }

  lemma AcceptedAgrees(w: World, i: NodeId, a: AppendArgs)
    requires Inv(w) && i in w.nodes && Backed(w.led, a)
    requires AcceptsAppend(w.nodes[i], a.term, a.prevIndex, a.prevTerm)
    ensures Agrees(w.nodes[i], Receive(w.nodes[i], a), a, w.led[a.term].log)
  {
    AcceptedAppend(w.led, w.nodes[i], a);
    BackedReplyMatch(w.led, a);
    AgreesFrom(w.nodes[i], a, w.led[a.term].log);
  }

  /**
   * A successful reply reports an index through which the follower's log then equals the log of
   * the term's leader, and a commit index taken from a request whose commit does not exceed the
   * sender's log covers only entries identical to the sender's.
   */
  lemma ReplicationAgrees(peers: seq<NodeId>, steps: seq<Step>, i: NodeId, m: Msg)
    requires Distinct(peers)
    requires Enabled(Run(Init(peers), steps), DeliverAppend(i, m))
    requires Reply(Run(Init(peers), steps).nodes[i], m).success
    ensures var w := Run(Init(peers), steps);
      && m.args.term in w.led && Reply(w.nodes[i], m).matchIndex == ReplyMatch(m.args)
      && Agrees(w.nodes[i], Receive(w.nodes[i], m.args), m.args, w.led[m.args.term].log)
  {
    InitInv(peers);
    RunInv(Init(peers), steps);
    AcceptedAgrees(Run(Init(peers), steps), i, m.args);
  }
}
