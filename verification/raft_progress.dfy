/** What merging, committing and applying do over the life of one node. */
module RaftProgress {
  import opened Common
  import opened RaftNode

  // --- votes -------------------------------------------------------------

  /** Once a vote is granted, the same request from any other candidate of that term is refused, and asking again changes nothing. */
  lemma GrantExclusive(n: Node, term: nat, c: NodeId, lastIndex: nat, lastTerm: nat)
    requires GrantsVote(n, term, c, lastIndex, lastTerm)
    ensures var m := HandleRequestVote(n, term, c, lastIndex, lastTerm);
      && (forall d, i, t :: GrantsVote(m, term, d, i, t) ==> d == c)
      && GrantsVote(m, term, c, lastIndex, lastTerm)
      && HandleRequestVote(m, term, c, lastIndex, lastTerm).(store := m.store) == m
  {
  }

  // --- the log merge -----------------------------------------------------

  /** After a merge the log holds every sent entry, by term, where the sender holds it; what agreed before is untouched. */
  lemma MergeHolds(log: seq<Entry>, start: nat, entries: seq<Entry>)
    requires start <= |log|
    ensures var logNow, c := Merge(log, start, entries), Agreeing(log, start, entries);
      && |logNow| >= start + |entries| && logNow[..start + c] == log[..start + c]
      && logNow[start + c..start + |entries|] == entries[c..]
      && (c == |entries| ==> logNow == log)
  {
  }

  lemma MergedTerm(log: seq<Entry>, start: nat, entries: seq<Entry>, k: nat)
    requires start <= |log| && k < |entries|
    ensures start + k < |Merge(log, start, entries)|
    ensures Merge(log, start, entries)[start + k].term == entries[k].term
  {
    var logNow, c := Merge(log, start, entries), Agreeing(log, start, entries);
    if c <= k {
      assert logNow[start + k] == entries[c..][k - c] == entries[k];
    }
  }

  /** Redelivering a request, or any shorter request with the same start, changes nothing. */
  lemma MergeRedelivered(log: seq<Entry>, start: nat, entries: seq<Entry>, j: nat)
    requires start <= |log| && j <= |entries|
    ensures start <= |Merge(log, start, entries)|
    ensures Merge(Merge(log, start, entries), start, entries[..j]) == Merge(log, start, entries)
  {
    MergeHolds(log, start, entries);
    var logNow := Merge(log, start, entries);
    forall k | 0 <= k < j ensures logNow[start + k].term == entries[..j][k].term {
      MergedTerm(log, start, entries, k);
    }
    assert Agreeing(logNow, start, entries[..j]) == j;
  }

  predicate NoConflictBelow(log: seq<Entry>, start: nat, entries: seq<Entry>, bound: nat) {
    forall k :: 0 <= k < |entries| && start + k < bound && start + k < |log| ==> log[start + k].term == entries[k].term
  }

  /** A merge keeps the first `bound` entries exactly when no sent entry conflicts below `bound`. */
  lemma MergeKeepsIff(log: seq<Entry>, start: nat, entries: seq<Entry>, bound: nat)
    requires start <= |log| && bound <= |log|
    ensures (bound <= |Merge(log, start, entries)| && Merge(log, start, entries)[..bound] == log[..bound])
       <==> NoConflictBelow(log, start, entries, bound)
  {
    MergeHolds(log, start, entries);
    var logNow, c := Merge(log, start, entries), Agreeing(log, start, entries);
    if NoConflictBelow(log, start, entries, bound) {
      if c < |entries| {
        assert start + c >= bound;
        assert logNow[..bound] == logNow[..start + c][..bound];
      }
    } else if bound <= |logNow| {
      var k :| 0 <= k < |entries| && start + k < bound && log[start + k].term != entries[k].term;
      MergedTerm(log, start, entries, k);
      assert logNow[..bound][start + k] == logNow[start + k] && log[..bound][start + k] == log[start + k];
    }
  }

  // --- exactly-once apply ------------------------------------------------

  datatype Event =
    | Elect
    | Tally(votes: nat)
    | VoteRequest(term: nat, candidate: NodeId, lastIndex: nat, lastTerm: nat)
    | AppendEntries(args: AppendArgs)
    | Ack(peer: NodeId, matchIndex: nat)
    | Next(peer: NodeId, next: nat)
    | Propose(data: seq<byte>)
    | Apply

  /** A node and everything it has handed to its state machine, in order. */
  datatype Replica = Replica(node: Node, handed: seq<Entry>)

  function React(r: Replica, e: Event): Replica {
    var n := r.node;
    match e
    case Elect => r.(node := BeginElection(n))
    case Tally(v) => r.(node := FinalizeElection(n, v))
    case VoteRequest(t, c, li, lt) => r.(node := HandleRequestVote(n, t, c, li, lt))
    case AppendEntries(a) => r.(node := HandleAppend(n, a.term, a.prevIndex, a.prevTerm, a.entries, a.commit))
    case Ack(p, m) => r.(node := RecordPeerAck(n, p, m))
    case Next(p, x) => r.(node := AdvanceNext(n, p, x))
    case Propose(d) => r.(node := LeaderAppend(n, d))
    case Apply => Replica(ApplyCommitted(n), r.handed + ToApply(n))
  }

  function ReactAll(r: Replica, es: seq<Event>): Replica
    decreases es
  {
    if es == [] then r else ReactAll(React(r, es[0]), es[1..])
  }

  /** Every accepted request along the run agrees with what the receiver has committed. */
  predicate RespectsCommitted(r: Replica, es: seq<Event>)
    decreases es
  {
    es == [] ||
    (&& (es[0].AppendEntries? && AcceptsAppend(r.node, es[0].args.term, es[0].args.prevIndex, es[0].args.prevTerm) ==>
           NoConflictBelow(r.node.log, es[0].args.prevIndex, es[0].args.entries, r.node.commit))
     && RespectsCommitted(React(r, es[0]), es[1..]))
  }

  ghost predicate InOrder(r: Replica) {
    r.node.applied <= r.node.commit <= |r.node.log| && r.handed == r.node.log[..r.node.applied]
  }

  lemma {:induction false} AdvanceCommitBounds(n: Node, idx: nat)
    ensures idx <= AdvanceCommit(n, idx) && (idx <= |n.log| ==> AdvanceCommit(n, idx) <= |n.log|)
    decreases |n.log| - idx
  {
    if MayCommit(n, idx + 1) {
      AdvanceCommitBounds(n, idx + 1);
    }
  }

  lemma PrefixKept(a: seq<Entry>, b: seq<Entry>, n: nat, k: nat)
    requires k <= n <= |a| && n <= |b| && a[..n] == b[..n]
    ensures a[..k] == b[..k]
  {
    assert a[..n][..k] == a[..k] && b[..n][..k] == b[..k];
  }

  lemma ReactInOrder(r: Replica, e: Event)
    requires InOrder(r) && RespectsCommitted(r, [e])
    ensures InOrder(React(r, e))
    ensures React(r, e).node.commit >= r.node.commit && React(r, e).node.applied >= r.node.applied
    ensures r.handed <= React(r, e).handed
  {
    var n := r.node;
    match e
    case AppendEntries(a) =>
      if AcceptsAppend(n, a.term, a.prevIndex, a.prevTerm) {
        MergeKeepsIff(n.log, a.prevIndex, a.entries, n.commit);
        PrefixKept(n.log, Merge(n.log, a.prevIndex, a.entries), n.commit, n.applied);
      }
    case Ack(p, m) => AdvanceCommitBounds(RecordMatch(n, p, m), n.commit);
    case Propose(d) => assert LeaderAppend(n, d).log[..n.applied] == n.log[..n.applied];
    case _ =>
  }

  /**
   * Over any run of a node that starts fresh and only accepts requests agreeing with its committed
   * prefix, the entries handed to the state machine are the applied prefix of the log, each once
   * and in order; neither index goes back.
   */
  lemma {:induction false} AppliedExactlyOnce(r: Replica, es: seq<Event>)
    requires InOrder(r) && RespectsCommitted(r, es)
    ensures InOrder(ReactAll(r, es))
    ensures ReactAll(r, es).node.commit >= r.node.commit && ReactAll(r, es).node.applied >= r.node.applied
    ensures r.handed <= ReactAll(r, es).handed
    decreases es
  {
    if es != [] {
      assert RespectsCommitted(r, [es[0]]);
      ReactInOrder(r, es[0]);
      AppliedExactlyOnce(React(r, es[0]), es[1..]);
    }
  }

  /** From a new node: what was handed over is exactly the applied prefix of the log. */
  lemma AppliedExactlyOnceFromStart(id: NodeId, peers: seq<NodeId>, store: Store, es: seq<Event>)
    requires RespectsCommitted(Replica(NewNode(id, peers, store), []), es)
    ensures var r := ReactAll(Replica(NewNode(id, peers, store), []), es);
      r.node.applied <= r.node.commit <= |r.node.log| && r.handed == r.node.log[..r.node.applied]
  {
    assert NewNode(id, peers, store).log[..0] == [];
    AppliedExactlyOnce(Replica(NewNode(id, peers, store), []), es);
  }

  // --- quorum commit -----------------------------------------------------

  ghost function Holding(peers: seq<NodeId>, matches: seq<nat>, idx: nat): set<NodeId>
    requires |matches| == |peers|
  {
    set i | 0 <= i < |peers| && matches[i] >= idx :: peers[i]
  }

  /** The leader itself and the peers recorded as holding the log through `idx`. */
  ghost function Holders(n: Node, idx: nat): set<NodeId>
    requires |n.matchIndex| == |n.peers|
  {
    {n.id} + Holding(n.peers, n.matchIndex, idx)
  }

  ghost predicate LeaderSlots(n: Node) {
    && Distinct(n.peers) && |n.matchIndex| == |n.peers|
    && forall i :: 0 <= i < |n.peers| && n.peers[i] == n.id ==> n.matchIndex[i] == 0
  }

  lemma HoldingStep(peers: seq<NodeId>, matches: seq<nat>, p: NodeId, m: nat, idx: nat)
    requires |matches| == |peers|
    ensures Holding(peers + [p], matches + [m], idx) == Holding(peers, matches, idx) + (if m >= idx then {p} else {})
  {
    var ps, ms := peers + [p], matches + [m];
    forall x | x in Holding(peers, matches, idx) ensures x in Holding(ps, ms, idx) {
      var i :| 0 <= i < |peers| && matches[i] >= idx && peers[i] == x;
      assert ms[i] >= idx && ps[i] == x;
    }
    if m >= idx {
      assert ms[|peers|] >= idx && ps[|peers|] == p;
    }
  }

  lemma {:induction false} CountIsSet(peers: seq<NodeId>, matches: seq<nat>, idx: nat)
    requires Distinct(peers) && |matches| == |peers|
    ensures CountAtLeast(matches, idx) == |Holding(peers, matches, idx)|
  {
    if peers != [] {
      var k := |peers| - 1;
      var ps, ms := peers[..k], matches[..k];
      assert peers == ps + [peers[k]] && matches == ms + [matches[k]];
      CountIsSet(ps, ms, idx);
      HoldingStep(ps, ms, peers[k], matches[k], idx);
      assert peers[k] !in Holding(ps, ms, idx) by {
        assert forall i :: 0 <= i < k ==> ps[i] == peers[i] != peers[k];
      }
    }
  }

  /** The leader's count is a true head count: it counts itself once. */
  lemma MajorityIsReal(n: Node, idx: nat)
    requires LeaderSlots(n) && idx > 0
    ensures 1 + CountAtLeast(n.matchIndex, idx) == |Holders(n, idx)|
    ensures 1 + CountAtLeast(n.matchIndex, idx) >= Majority(n) <==> 2 * |Holders(n, idx)| > |n.peers|
  {
    CountIsSet(n.peers, n.matchIndex, idx);
    assert n.id !in Holding(n.peers, n.matchIndex, idx);
  }

  /** Index `idx` may be committed by the leader of the current term. */
  ghost predicate Quorate(n: Node, idx: nat)
    requires |n.matchIndex| == |n.peers|
  {
    1 <= idx <= |n.log| && n.log[idx - 1].term == n.term && 2 * |Holders(n, idx)| > |n.peers|
  }

  lemma MayCommitIsQuorate(n: Node, idx: nat)
    requires LeaderSlots(n)
    ensures MayCommit(n, idx) <==> Quorate(n, idx)
  {
    if idx > 0 {
      MajorityIsReal(n, idx);
    }
  }

  lemma {:induction false} CommitMoves(n: Node, idx: nat)
    ensures var c := AdvanceCommit(n, idx);
      idx <= c && (forall k :: idx < k <= c ==> MayCommit(n, k)) && !MayCommit(n, c + 1)
    decreases |n.log| - idx
  {
    if MayCommit(n, idx + 1) {
      CommitMoves(n, idx + 1);
    }
  }

  /** The commit index moves over quorate indices only, and stops at the first that is not. */
  lemma CommitIsExact(n: Node, idx: nat)
    requires LeaderSlots(n)
    ensures var c := AdvanceCommit(n, idx);
      && idx <= c && (forall k :: idx < k <= c ==> Quorate(n, k)) && !Quorate(n, c + 1)
  {
    CommitMoves(n, idx);
    var c := AdvanceCommit(n, idx);
    forall k | idx < k <= c ensures Quorate(n, k) {
      MayCommitIsQuorate(n, k);
    }
    MayCommitIsQuorate(n, c + 1);
  }

  /** One ack: the newly committed indices are quorate, the next one is not. */
  lemma AckCommits(n: Node, peer: NodeId, peerMatch: nat, k: nat)
    requires LeaderSlots(RecordPeerAck(n, peer, peerMatch))
    ensures var l := RecordPeerAck(n, peer, peerMatch);
      && n.commit <= l.commit && (n.commit < k <= l.commit ==> Quorate(l, k))
      && (k == l.commit + 1 ==> !Quorate(l, k))
  {
    var m, l := RecordMatch(n, peer, peerMatch), RecordPeerAck(n, peer, peerMatch);
    CommitIsExact(m, n.commit);
    assert Quorate(m, k) <==> Quorate(l, k);
  }

  /** What a leader does during one leadership. */
  datatype LeaderEvent = Appends(data: seq<byte>) | Hears(peer: NodeId, matchIndex: nat)

  function Lead(n: Node, es: seq<LeaderEvent>): Node
    decreases |es|
  {
    if es == [] then n
    else
      var before := Lead(n, es[..|es| - 1]);
      match es[|es| - 1]
      case Appends(d) => LeaderAppend(before, d)
      case Hears(p, m) => RecordPeerAck(before, p, m)
  }

  /** The peers that have reported holding the log through `idx`. */
  ghost function Reported(n: Node, es: seq<LeaderEvent>, idx: nat): set<NodeId> {
    set p | p in n.peers && exists k :: 0 <= k < |es| && es[k].Hears? && es[k].peer == p && es[k].matchIndex >= idx
  }

  /** Everyone the leader counts for `idx`: itself, who reported it, and who had reported it to an earlier leadership. */
  ghost function Backers(n: Node, es: seq<LeaderEvent>, idx: nat): set<NodeId>
    requires |n.matchIndex| == |n.peers|
  {
    {n.id} + Reported(n, es, idx) + Holding(n.peers, n.matchIndex, idx)
  }

  ghost predicate TracksReports(n: Node, es: seq<LeaderEvent>)
    requires |n.matchIndex| == |n.peers|
  {
    var l := Lead(n, es);
    && l.id == n.id && l.peers == n.peers && l.term == n.term && n.log <= l.log
    && LeaderSlots(l)
    && forall i, idx :: 0 <= i < |n.peers| && idx > 0 ==>
         (l.matchIndex[i] >= idx <==> n.peers[i] in Reported(n, es, idx) || n.matchIndex[i] >= idx)
  }

  lemma ReportedStep(n: Node, es: seq<LeaderEvent>, e: LeaderEvent, idx: nat)
    ensures Reported(n, es + [e], idx) ==
      Reported(n, es, idx) + (if e.Hears? && e.peer in n.peers && e.matchIndex >= idx then {e.peer} else {})
  {
    var esNow := es + [e];
    forall p | p in n.peers
      ensures p in Reported(n, esNow, idx) <==> p in Reported(n, es, idx) || (e.Hears? && e.peer == p && e.matchIndex >= idx)
    {
      if p in Reported(n, es, idx) {
        var k :| 0 <= k < |es| && es[k].Hears? && es[k].peer == p && es[k].matchIndex >= idx;
        assert esNow[k] == es[k];
      }
      if e.Hears? && e.peer == p && e.matchIndex >= idx {
        assert esNow[|es|] == e;
      }
    }
  }

  /** A leadership in which no ack comes from the leader itself, nor ever has. */
  ghost predicate Leadership(n: Node, es: seq<LeaderEvent>) {
    && LeaderSlots(n)
    && forall k :: 0 <= k < |es| && es[k].Hears? ==> es[k].peer != n.id
  }

  /** An ack raises its sender's slot and no other. */
  lemma AckRaises(n: Node, peer: NodeId, peerMatch: nat, i: nat, idx: nat)
    requires Distinct(n.peers) && |n.matchIndex| == |n.peers| && i < |n.peers|
    ensures |RecordPeerAck(n, peer, peerMatch).matchIndex| == |n.peers|
    ensures RecordPeerAck(n, peer, peerMatch).matchIndex[i] >= idx <==>
      n.matchIndex[i] >= idx || (n.peers[i] == peer && peerMatch >= idx)
  {
  }

  lemma LeadTracksStep(n: Node, es: seq<LeaderEvent>, e: LeaderEvent)
    requires LeaderSlots(n) && TracksReports(n, es) && (e.Hears? ==> e.peer != n.id)
    ensures TracksReports(n, es + [e])
  {
    assert (es + [e])[..|es|] == es;
    var b, l := Lead(n, es), Lead(n, es + [e]);
    forall i, idx: nat | 0 <= i < |n.peers| && idx > 0
      ensures l.matchIndex[i] >= idx <==> n.peers[i] in Reported(n, es + [e], idx) || n.matchIndex[i] >= idx
    {
      ReportedStep(n, es, e, idx);
      if e.Hears? {
        AckRaises(b, e.peer, e.matchIndex, i, idx);
      }
    }
    forall i | 0 <= i < |n.peers| && n.peers[i] == n.id ensures l.matchIndex[i] == 0 {
      if e.Hears? {
        AckRaises(b, e.peer, e.matchIndex, i, 1);
      }
    }
    assert e.Appends? ==> b.log == l.log[..|b.log|];
  }

  lemma {:induction false} LeadTracks(n: Node, es: seq<LeaderEvent>)
    requires Leadership(n, es)
    ensures TracksReports(n, es)
    decreases |es|
  {
    if es != [] {
      var front, e := es[..|es| - 1], es[|es| - 1];
      LeadTracks(n, front);
      LeadTracksStep(n, front, e);
      assert es == front + [e];
    }
  }

  /** Index `idx` is in the leader's log with its own term and backed by a majority that counts every node once. */
  ghost predicate Acknowledged(n: Node, es: seq<LeaderEvent>, idx: nat)
    requires |n.matchIndex| == |n.peers|
  {
    var l := Lead(n, es);
    1 <= idx <= |l.log| && l.log[idx - 1].term == n.term && 2 * |Backers(n, es, idx)| > |n.peers|
  }

  lemma HoldersAreBackers(n: Node, es: seq<LeaderEvent>, idx: nat)
    requires |n.matchIndex| == |n.peers| && TracksReports(n, es) && idx > 0
    ensures Holders(Lead(n, es), idx) == Backers(n, es, idx)
  {
    var l := Lead(n, es);
    forall p | p in Backers(n, es, idx) ensures p in Holders(l, idx) {
      if p != n.id {
        var i :| 0 <= i < |n.peers| && n.peers[i] == p && (p in Reported(n, es, idx) || n.matchIndex[i] >= idx);
        assert l.matchIndex[i] >= idx;
      }
    }
    forall p | p in Holders(l, idx) ensures p in Backers(n, es, idx) {
      if p != n.id {
        var i :| 0 <= i < |n.peers| && l.matchIndex[i] >= idx && n.peers[i] == p;
      }
    }
  }

  lemma AcknowledgedKept(n: Node, es: seq<LeaderEvent>, e: LeaderEvent, idx: nat)
    requires Leadership(n, es + [e]) && Acknowledged(n, es, idx)
    ensures Acknowledged(n, es + [e], idx)
  {
    LeadTracks(n, es + [e]);
    assert (es + [e])[..|es|] == es;
    ReportedStep(n, es, e, idx);
    SubsetCount(Backers(n, es, idx), Backers(n, es + [e], idx));
  }

  lemma QuorateIsAcknowledged(n: Node, es: seq<LeaderEvent>, idx: nat)
    requires Leadership(n, es)
    ensures LeaderSlots(Lead(n, es)) && (Quorate(Lead(n, es), idx) <==> Acknowledged(n, es, idx))
  {
    LeadTracks(n, es);
    if idx > 0 {
      HoldersAreBackers(n, es, idx);
    }
  }

  lemma HearsAcknowledged(n: Node, es: seq<LeaderEvent>, e: LeaderEvent, k: nat)
    requires e.Hears? && Leadership(n, es + [e])
    ensures Lead(n, es).commit <= Lead(n, es + [e]).commit
    ensures Lead(n, es).commit < k <= Lead(n, es + [e]).commit ==> Acknowledged(n, es + [e], k)
    ensures k == Lead(n, es + [e]).commit + 1 ==> !Acknowledged(n, es + [e], k)
  {
    var esNow := es + [e];
    assert esNow[..|es|] == es;
    var b, l := Lead(n, es), Lead(n, esNow);
    assert l == RecordPeerAck(b, e.peer, e.matchIndex);
    QuorateIsAcknowledged(n, esNow, k);
    AckCommits(b, e.peer, e.matchIndex, k);
  }

  /** Within one leadership every index committed since it began is acknowledged by a true majority. */
  lemma {:induction false} CommitSound(n: Node, es: seq<LeaderEvent>, k: nat)
    requires Leadership(n, es)
    ensures n.commit <= Lead(n, es).commit
    ensures n.commit < k <= Lead(n, es).commit ==> Acknowledged(n, es, k)
    decreases |es|
  {
    if es != [] {
      var front, e := es[..|es| - 1], es[|es| - 1];
      assert es == front + [e];
      CommitSound(n, front, k);
      if e.Hears? {
        HearsAcknowledged(n, front, e, k);
      }
      if n.commit < k <= Lead(n, front).commit {
        AcknowledgedKept(n, front, e, k);
      }
    }
  }

  /**
   * The first leadership of a node: every committed index has the leader's term and was reported,
   * in this leadership, by peers that make a majority together with the leader.
   */
  lemma FirstLeadershipSound(id: NodeId, peers: seq<NodeId>, store: Store, votes: nat, es: seq<LeaderEvent>, k: nat)
    requires Distinct(peers) && forall i :: 0 <= i < |es| && es[i].Hears? ==> es[i].peer != id
    ensures var n := FinalizeElection(BeginElection(NewNode(id, peers, store)), votes);
      var l := Lead(n, es);
      1 <= k <= l.commit ==>
        k <= |l.log| && l.log[k - 1].term == n.term && 2 * |{id} + Reported(n, es, k)| > |peers|
  {
    var n := FinalizeElection(BeginElection(NewNode(id, peers, store)), votes);
    CommitSound(n, es, k);
    if 1 <= k <= Lead(n, es).commit {
      assert Holding(n.peers, n.matchIndex, k) == {};
      assert Backers(n, es, k) == {id} + Reported(n, es, k);
    }
  }

  /** After an ack, the first index not committed is not acknowledged by a majority in this term. */
  lemma CommitMaximal(n: Node, es: seq<LeaderEvent>)
    requires Leadership(n, es) && es != [] && es[|es| - 1].Hears?
    ensures !Acknowledged(n, es, Lead(n, es).commit + 1)
  {
    var front, e := es[..|es| - 1], es[|es| - 1];
    assert es == front + [e];
    HearsAcknowledged(n, front, e, Lead(n, es).commit + 1);
  }

  // --- entries of earlier terms ------------------------------------------

  /** A majority, the leader included, holds the log through `idx`. */
  ghost predicate HeldByMajority(n: Node, idx: nat)
    requires |n.matchIndex| == |n.peers|
  {
    1 <= idx <= |n.log| && 2 * |Holders(n, idx)| > |n.peers|
  }

  lemma HeldBelow(n: Node, j: nat, k: nat)
    requires |n.matchIndex| == |n.peers| && 1 <= j <= k && HeldByMajority(n, k)
    ensures HeldByMajority(n, j)
  {
    SubsetCount(Holders(n, k), Holders(n, j));
  }

  /** `h` is the greatest index a majority holds. */
  ghost predicate GreatestHeld(n: Node, h: nat)
    requires |n.matchIndex| == |n.peers|
  {
    HeldByMajority(n, h) && forall k :: k > h ==> !HeldByMajority(n, k)
  }

  /** The commit index of `l` went from `from` over quorate indices to the first that is not. */
  ghost predicate CommittedFrom(l: Node, from: nat)
    requires |l.matchIndex| == |l.peers|
  {
    from <= l.commit && (forall k :: from < k <= l.commit ==> Quorate(l, k)) && !Quorate(l, l.commit + 1)
  }

  lemma AckCommittedFrom(n: Node, peer: NodeId, peerMatch: nat)
    requires LeaderSlots(RecordPeerAck(n, peer, peerMatch))
    ensures CommittedFrom(RecordPeerAck(n, peer, peerMatch), n.commit)
  {
    var l := RecordPeerAck(n, peer, peerMatch);
    forall k | n.commit < k <= l.commit ensures Quorate(l, k) {
      AckCommits(n, peer, peerMatch, k);
    }
    AckCommits(n, peer, peerMatch, l.commit + 1);
  }

  lemma QuorateIsHeld(l: Node, k: nat)
    requires |l.matchIndex| == |l.peers|
    ensures Quorate(l, k) <==> HeldByMajority(l, k) && l.log[k - 1].term == l.term
  {
  }

  lemma NotPastHeld(l: Node, from: nat, h: nat)
    requires |l.matchIndex| == |l.peers| && CommittedFrom(l, from) && GreatestHeld(l, h) && from < h
    ensures from <= l.commit <= h <= |l.log|
  {
    if l.commit > h {
      QuorateIsHeld(l, l.commit);
    }
  }

  /** The entries at positions `from` up to `to` have the given term. */
  ghost predicate OfTerm(log: seq<Entry>, from: nat, to: nat, term: nat) {
    to <= |log| && forall i :: from <= i < to ==> log[i].term == term
  }

  lemma PassedOwnTerm(l: Node, from: nat)
    requires |l.matchIndex| == |l.peers| && CommittedFrom(l, from) && l.commit <= |l.log|
    ensures OfTerm(l.log, from, l.commit, l.term)
  {
    forall i | from <= i < l.commit ensures l.log[i].term == l.term {
      assert Quorate(l, i + 1);
    }
  }

  lemma StoppedByTerm(l: Node, h: nat)
    requires |l.matchIndex| == |l.peers| && !Quorate(l, l.commit + 1) && HeldByMajority(l, h) && l.commit < h
    ensures l.commit < h <= |l.log| && l.log[l.commit].term != l.term
  {
    HeldBelow(l, l.commit + 1, h);
  }

  /** Where an ack leaves the commit index, seen from the greatest held index. */
  ghost predicate StopsAt(log: seq<Entry>, term: nat, from: nat, c: nat, h: nat) {
    from <= c <= h <= |log| && OfTerm(log, from, c, term) && (c < h ==> log[c].term != term)
  }

  lemma LeaderStops(l: Node, from: nat, h: nat)
    requires |l.matchIndex| == |l.peers| && CommittedFrom(l, from) && GreatestHeld(l, h) && from < h
    ensures StopsAt(l.log, l.term, from, l.commit, h)
  {
    NotPastHeld(l, from, h);
    PassedOwnTerm(l, from);
    if l.commit < h {
      StoppedByTerm(l, h);
    }
  }

  lemma AckKeeps(n: Node, peer: NodeId, peerMatch: nat)
    ensures var l := RecordPeerAck(n, peer, peerMatch); l.log == n.log && l.term == n.term && l.peers == n.peers && l.id == n.id
  {
  }

  lemma StopsIff(log: seq<Entry>, term: nat, from: nat, c: nat, h: nat)
    requires StopsAt(log, term, from, c, h)
    ensures c == h <==> OfTerm(log, from, h, term)
  {
  }

  /**
   * An ack brings the commit index to the greatest index a majority holds exactly when every entry
   * on the way there has the leader's term.
   */
  lemma CommitReachesIff(n: Node, peer: NodeId, peerMatch: nat, h: nat)
    requires LeaderSlots(RecordPeerAck(n, peer, peerMatch))
    requires GreatestHeld(RecordPeerAck(n, peer, peerMatch), h) && n.commit < h
    ensures RecordPeerAck(n, peer, peerMatch).commit == h <==> OfTerm(n.log, n.commit, h, n.term)
  {
    var l := RecordPeerAck(n, peer, peerMatch);
    AckKeeps(n, peer, peerMatch);
    AckCommittedFrom(n, peer, peerMatch);
    LeaderStops(l, n.commit, h);
    StopsIff(l.log, l.term, n.commit, l.commit, h);
  }

  /** Where no majority holds an index past the commit index, an ack commits nothing. */
  lemma NothingHeldNothingCommitted(n: Node, peer: NodeId, peerMatch: nat)
    requires LeaderSlots(RecordPeerAck(n, peer, peerMatch))
    requires forall k :: k > n.commit ==> !HeldByMajority(RecordPeerAck(n, peer, peerMatch), k)
    ensures RecordPeerAck(n, peer, peerMatch).commit == n.commit
  {
    AckCommittedFrom(n, peer, peerMatch);
    var l := RecordPeerAck(n, peer, peerMatch);
    if n.commit < l.commit {
      QuorateIsHeld(l, l.commit);
    }
  }

  /** A leader of three with one entry, not committed yet. */
  function FirstTerm(): Node {
    LeaderAppend(FinalizeElection(BeginElection(NewNode("a", ["a", "b", "c"], Store(0, None))), 2), [])
  }

  /** It steps down for a candidate with an empty log, refuses its vote, and is elected again. */
  function Reelected(): Node {
    FinalizeElection(BeginElection(HandleRequestVote(FirstTerm(), 2, "c", 0, 0)), 2)
  }

  lemma SteppedDown()
    ensures !GrantsVote(FirstTerm(), 2, "c", 0, 0)
    ensures var n := HandleRequestVote(FirstTerm(), 2, "c", 0, 0);
      n.role == Follower && n.term == 2 && n.id == "a" && n.peers == ["a", "b", "c"]
      && n.log == [Entry(1, 1, [])] && n.commit == 0 && n.matchIndex == [0, 0, 0]
  {
  }

  lemma ReelectedState()
    ensures var n := Reelected();
      n.role == Leader && n.term == 3 && n.id == "a" && n.peers == ["a", "b", "c"]
      && n.log == [Entry(1, 1, [])] && n.commit == 0 && n.matchIndex == [0, 0, 0]
  {
    SteppedDown();
  }

  lemma AckRecorded(n: Node)
    requires n.peers == ["a", "b", "c"] && n.matchIndex == [0, 0, 0]
    requires n.log == [Entry(1, 1, [])] && n.term == 3 && n.commit == 0
    ensures RecordPeerAck(n, "b", 1) == n.(matchIndex := [0, 1, 0])
  {
    assert n.peers[0] == "a" && n.peers[1] == "b" && "a"[0] != "b"[0];
    assert Position(n.peers, "b") == Some(1);
    assert n.matchIndex[1 := 1] == [0, 1, 0];
  }

  lemma TwoOfThree(l: Node)
    requires l.id == "a" && l.peers == ["a", "b", "c"] && l.matchIndex == [0, 1, 0] && |l.log| == 1
    ensures LeaderSlots(l) && GreatestHeld(l, 1)
  {
    assert "a"[0] != "b"[0] && "b"[0] != "c"[0] && "a"[0] != "c"[0];
    assert l.peers[1] in Holders(l, 1);
    SubsetCount({"a", "b"}, Holders(l, 1));
  }

  /** With one ack a majority holds its only entry, and the commit index stays behind. */
  lemma HeldButNotCommitted()
    ensures var l := RecordPeerAck(Reelected(), "b", 1);
      && l.role == Leader && l.term == 3 && LeaderSlots(l) && GreatestHeld(l, 1) && l.commit == 0
  {
    ReelectedState();
    AckRecorded(Reelected());
    TwoOfThree(RecordPeerAck(Reelected(), "b", 1));
  }

  /**
   * An uncommitted entry of an earlier term stops the commit index for the whole leadership, however
   * many peers acknowledge it and whatever follows it.
   */
  lemma {:induction false} EarlierTermBlocksCommit(n: Node, es: seq<LeaderEvent>)
    requires n.commit < |n.log| && n.log[n.commit].term != n.term
    ensures Lead(n, es).commit == n.commit && Lead(n, es).term == n.term && n.log <= Lead(n, es).log
    decreases |es|
  {
    if es != [] {
      EarlierTermBlocksCommit(n, es[..|es| - 1]);
      var b := Lead(n, es[..|es| - 1]);
      assert b.log[n.commit] == n.log[n.commit];
    }
  }
}
