/**
 * One Raft node as a value: the state, and what every RPC and driver call does to it.
 * `RaftServer` holds the mutable node that is proved to behave like these functions.
 */
module RaftNode {
  import opened Common

  type NodeId = string
  datatype Role = Follower | Candidate | Leader
  datatype Entry = Entry(term: nat, index: nat, data: seq<byte>)

  /** What survives a crash, and the two single writes that change it. */
  datatype Store = Store(term: nat, votedFor: Option<NodeId>)
  datatype Write = SaveTerm(term: nat) | SaveVotedFor(id: Option<NodeId>)

  datatype Node = Node(
    id: NodeId, peers: seq<NodeId>, role: Role,
    term: nat, votedFor: Option<NodeId>, log: seq<Entry>,
    commit: nat, applied: nat, nextIndex: seq<nat>, matchIndex: seq<nat>,
    store: Store)

  function Persist(s: Store, w: Write): Store {
    match w
    case SaveTerm(t) => s.(term := t)
    case SaveVotedFor(id) => s.(votedFor := id)
  }

  function PersistAll(s: Store, ws: seq<Write>): Store
    decreases ws
  {
    if ws == [] then s else PersistAll(Persist(s, ws[0]), ws[1..])
  }

  /** No call makes more than three writes. */
  lemma PersistFew(s: Store, ws: seq<Write>)
    ensures ws == [] ==> PersistAll(s, ws) == s
    ensures |ws| == 1 ==> PersistAll(s, ws) == Persist(s, ws[0])
    ensures |ws| == 2 ==> PersistAll(s, ws) == Persist(Persist(s, ws[0]), ws[1])
    ensures |ws| == 3 ==> PersistAll(s, ws) == Persist(Persist(Persist(s, ws[0]), ws[1]), ws[2])
    decreases ws
  {
    if 0 < |ws| <= 3 {
      PersistFew(Persist(s, ws[0]), ws[1..]);
    }
  }

  function NewNode(id: NodeId, peers: seq<NodeId>, store: Store): Node {
    Node(id, peers, Follower, store.term, store.votedFor, [], 0, 0,
         seq(if |peers| / 2 + 1 > |peers| then |peers| / 2 + 1 else |peers|, _ => 1),
         seq(|peers|, _ => 0), store)
  }

  function Majority(n: Node): nat { |n.peers| / 2 + 1 }

  function LastLog(log: seq<Entry>): (nat, nat) {
    if log == [] then (0, 0) else (log[|log| - 1].index, log[|log| - 1].term)
  }

  function UpToDate(log: seq<Entry>, lastIndex: nat, lastTerm: nat): bool {
    var (myIndex, myTerm) := LastLog(log);
    lastTerm > myTerm || (lastTerm == myTerm && lastIndex >= myIndex)
  }

  // --- elections ---------------------------------------------------------

  function BeginElectionWrites(n: Node): seq<Write> {
    [SaveTerm(n.term + 1), SaveVotedFor(Some(n.id))]
  }

  function BeginElection(n: Node): Node {
    n.(term := n.term + 1, role := Candidate, votedFor := Some(n.id),
       store := PersistAll(n.store, BeginElectionWrites(n)))
  }

  function FinalizeElection(n: Node, votes: nat): Node {
    if votes >= Majority(n)
    then n.(role := Leader, nextIndex := seq(|n.nextIndex|, _ => |n.log| + 1))
    else n
  }

  /** Does `n`, having seen `term`, vote for `candidate`? */
  predicate GrantsVote(n: Node, term: nat, candidate: NodeId, lastIndex: nat, lastTerm: nat) {
    && term >= n.term
    && (term > n.term || n.votedFor.None? || n.votedFor == Some(candidate))
    && UpToDate(n.log, lastIndex, lastTerm)
  }

  function RequestVoteWrites(n: Node, term: nat, candidate: NodeId, lastIndex: nat, lastTerm: nat): seq<Write> {
    (if term > n.term then [SaveTerm(term), SaveVotedFor(None)] else []) +
    (if GrantsVote(n, term, candidate, lastIndex, lastTerm) then [SaveVotedFor(Some(candidate))] else [])
  }

  function HandleRequestVote(n: Node, term: nat, candidate: NodeId, lastIndex: nat, lastTerm: nat): Node {
    var seen := if term > n.term then n.(term := term, votedFor := None, role := Follower) else n;
    var voted := if GrantsVote(n, term, candidate, lastIndex, lastTerm) then seen.(votedFor := Some(candidate)) else seen;
    voted.(store := PersistAll(n.store, RequestVoteWrites(n, term, candidate, lastIndex, lastTerm)))
  }

  // --- replication -------------------------------------------------------

  /** How many leading entries the log already holds, by term, from `start` on. */
  function Agreeing(log: seq<Entry>, start: nat, entries: seq<Entry>): (c: nat)
    requires start <= |log|
    ensures c <= |entries| && start + c <= |log|
    ensures forall i :: 0 <= i < c ==> log[start + i].term == entries[i].term
    ensures c < |entries| && start + c < |log| ==> log[start + c].term != entries[c].term
    decreases |entries|
  {
    if entries == [] || start == |log| || log[start].term != entries[0].term then 0
    else
      var rest := Agreeing(log, start + 1, entries[1..]);
      assert forall i :: 0 < i < 1 + rest ==> log[start + i] == log[start + 1 + (i - 1)] && entries[i] == entries[1..][i - 1];
      1 + rest
  }

  /** Keep the agreeing entries; from the first term conflict on, the sender's entries replace the log. */
  function Merge(log: seq<Entry>, start: nat, entries: seq<Entry>): seq<Entry>
    requires start <= |log|
  {
    var c := Agreeing(log, start, entries);
    if c == |entries| then log else log[..start + c] + entries[c..]
  }

  predicate PrevOk(log: seq<Entry>, prevIndex: nat, prevTerm: nat) {
    prevIndex == 0 || (prevIndex <= |log| && log[prevIndex - 1].term == prevTerm)
  }

  predicate AcceptsAppend(n: Node, term: nat, prevIndex: nat, prevTerm: nat) {
    term >= n.term && PrevOk(n.log, prevIndex, prevTerm)
  }

  function AppendWrites(n: Node, term: nat): seq<Write> {
    if term > n.term then [SaveTerm(term)] else []
  }

  function Min(a: nat, b: nat): nat { if a <= b then a else b }

  function HandleAppend(n: Node, term: nat, prevIndex: nat, prevTerm: nat, entries: seq<Entry>, leaderCommit: nat): Node {
    var seen := if term > n.term
                then n.(term := term, role := Follower, store := PersistAll(n.store, AppendWrites(n, term)))
                else n;
    if !AcceptsAppend(n, term, prevIndex, prevTerm) then seen
    else
      var logNow := Merge(n.log, prevIndex, entries);
      seen.(log := logNow, commit := if leaderCommit > n.commit then Min(leaderCommit, |logNow|) else n.commit)
  }

  function LeaderAppend(n: Node, data: seq<byte>): Node {
    n.(log := n.log + [Entry(n.term, |n.log| + 1, data)])
  }

  function CountAtLeast(matches: seq<nat>, idx: nat): nat {
    if matches == [] then 0
    else CountAtLeast(matches[..|matches| - 1], idx) + (if matches[|matches| - 1] >= idx then 1 else 0)
  }

  predicate MayCommit(n: Node, idx: nat) {
    1 <= idx <= |n.log| && 1 + CountAtLeast(n.matchIndex, idx) >= Majority(n) && n.log[idx - 1].term == n.term
  }

  function AdvanceCommit(n: Node, idx: nat): nat
    decreases |n.log| - idx
  {
    if MayCommit(n, idx + 1) then AdvanceCommit(n, idx + 1) else idx
  }

  function RecordMatch(n: Node, peer: NodeId, peerMatch: nat): Node {
    match Position(n.peers, peer)
    case Some(i) =>
      if i < |n.matchIndex| && n.matchIndex[i] < peerMatch then n.(matchIndex := n.matchIndex[i := peerMatch]) else n
    case None => n
  }

  function RecordPeerAck(n: Node, peer: NodeId, peerMatch: nat): Node {
    var m := RecordMatch(n, peer, peerMatch);
    m.(commit := AdvanceCommit(m, m.commit))
  }

  function AdvanceNext(n: Node, peer: NodeId, next: nat): Node {
    match Position(n.peers, peer)
    case Some(i) => if i < |n.nextIndex| then n.(nextIndex := n.nextIndex[i := next]) else n
    case None => n
  }

  function NextIndexOf(n: Node, peer: NodeId): nat {
    match Position(n.peers, peer)
    case Some(i) => if i < |n.nextIndex| then n.nextIndex[i] else |n.log| + 1
    case None => |n.log| + 1
  }

  /** The log without its leading entries whose index is below `start`. */
  function EntriesFrom(log: seq<Entry>, start: nat): seq<Entry> {
    if log == [] || log[0].index >= start then log else EntriesFrom(log[1..], start)
  }

  /** The term of the first entry numbered `idx`, 0 when there is none. */
  function TermAt(log: seq<Entry>, idx: nat): nat {
    if log == [] then 0 else if log[0].index == idx then log[0].term else TermAt(log[1..], idx)
  }

  datatype AppendArgs = AppendArgs(term: nat, prevIndex: nat, prevTerm: nat, entries: seq<Entry>, commit: nat)

  /** The AppendEntries request a leader builds for `peer`. */
  function AppendRequest(n: Node, peer: NodeId): AppendArgs {
    var start := if NextIndexOf(n, peer) < 1 then 1 else NextIndexOf(n, peer);
    var entries := EntriesFrom(n.log, start);
    if entries != [] then
      var idx := if entries[0].index == 0 then 0 else entries[0].index - 1;
      AppendArgs(n.term, idx, TermAt(n.log, idx), entries, n.commit)
    else
      AppendArgs(n.term, LastLog(n.log).0, LastLog(n.log).1, [], n.commit)
  }

  /** The match index a follower reports in a successful reply. */
  function ReplyMatch(a: AppendArgs): nat {
    if a.entries == [] then a.prevIndex else a.entries[|a.entries| - 1].index
  }

  /** The entries `apply_committed` hands over, in order. */
  function ToApply(n: Node): seq<Entry> {
    if n.applied < Min(n.commit, |n.log|) then n.log[n.applied..Min(n.commit, |n.log|)] else []
  }

  function ApplyCommitted(n: Node): Node {
    n.(applied := n.applied + |ToApply(n)|)
  }
}
