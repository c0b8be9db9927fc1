/**
 * The mutable Raft node. Every method is proved to take the node's state to the state that the
 * functions of `RaftNode` give, and to make exactly their store writes, in their order.
 */
module RaftServer {
  import opened Common
  import opened RaftNode

  /** The durable store; `writes` is the order in which single writes reached it. */
  class MemoryStore {
    var term: nat
    var votedFor: Option<NodeId>
    ghost var writes: seq<Write>

    constructor (term: nat, votedFor: Option<NodeId>)
      ensures this.term == term && this.votedFor == votedFor && writes == []
    {
      this.term, this.votedFor, writes := term, votedFor, [];
    }

    ghost function Value(): Store
      reads this
    {
      Store(term, votedFor)
    }

    method SaveTerm(t: nat)
      modifies this
      ensures Value() == Persist(old(Value()), Write.SaveTerm(t))
      ensures writes == old(writes) + [Write.SaveTerm(t)]
    {
      term := t;
      writes := writes + [Write.SaveTerm(t)];
    }

    method SaveVotedFor(id: Option<NodeId>)
      modifies this
      ensures Value() == Persist(old(Value()), Write.SaveVotedFor(id))
      ensures writes == old(writes) + [Write.SaveVotedFor(id)]
    {
      votedFor := id;
      writes := writes + [Write.SaveVotedFor(id)];
    }
  }

  class Server {
    const id: NodeId
    const peers: seq<NodeId>
    const store: MemoryStore
    var role: Role
    var currentTerm: nat
    var votedFor: Option<NodeId>
    var log: seq<Entry>
    var commitIndex: nat
    var lastApplied: nat
    var nextIndex: seq<nat>
    var matchIndex: seq<nat>

    ghost function State(): Node
      reads this, store
    {
      Node(id, peers, role, currentTerm, votedFor, log, commitIndex, lastApplied, nextIndex, matchIndex, store.Value())
    }

    constructor (id: NodeId, peers: seq<NodeId>, store: MemoryStore)
      ensures this.store == store && State() == NewNode(id, peers, store.Value())
    {
      this.id, this.peers, this.store := id, peers, store;
      role := Follower;
      currentTerm, votedFor := store.term, store.votedFor;
      log, commitIndex, lastApplied := [], 0, 0;
      var majority := |peers| / 2 + 1;
      nextIndex := seq(if majority > |peers| then majority else |peers|, _ => 1);
      matchIndex := seq(|peers|, _ => 0);
    }

    method BeginElection() returns (last: (nat, nat))
      modifies this, store
      ensures State() == RaftNode.BeginElection(old(State()))
      ensures store.writes == old(store.writes) + BeginElectionWrites(old(State()))
      ensures last == LastLog(log)
    {
      currentTerm := currentTerm + 1;
      store.SaveTerm(currentTerm);
      role := Candidate;
      votedFor := Some(id);
      store.SaveVotedFor(Some(id));
      last := LastLog(log);
      PersistFew(old(State()).store, BeginElectionWrites(old(State())));
    }

    method FinalizeElection(votes: nat)
      modifies this
      ensures State() == RaftNode.FinalizeElection(old(State()), votes)
    {
      if votes >= |peers| / 2 + 1 {
        role := Leader;
        var next := |log| + 1;
        var i := 0;
        while i < |nextIndex|
          invariant 0 <= i <= |nextIndex| == |old(nextIndex)|
          invariant forall k :: 0 <= k < i ==> nextIndex[k] == next
          invariant State() == old(State()).(role := Leader, nextIndex := nextIndex)
        {
          nextIndex := nextIndex[i := next];
          i := i + 1;
        }
        assert nextIndex == seq(|nextIndex|, _ => next);
      }
    }

    method HandleRequestVote(term: nat, candidate: NodeId, lastIndex: nat, lastTerm: nat)
      returns (replyTerm: nat, granted: bool)
      modifies this, store
      ensures State() == RaftNode.HandleRequestVote(old(State()), term, candidate, lastIndex, lastTerm)
      ensures store.writes == old(store.writes) + RequestVoteWrites(old(State()), term, candidate, lastIndex, lastTerm)
      ensures replyTerm == currentTerm && granted == GrantsVote(old(State()), term, candidate, lastIndex, lastTerm)
    {
      PersistFew(State().store, RequestVoteWrites(State(), term, candidate, lastIndex, lastTerm));
      if term < currentTerm {
        return currentTerm, false;
      }
      if term > currentTerm {
        currentTerm := term;
        store.SaveTerm(currentTerm);
        votedFor := None;
        store.SaveVotedFor(None);
        role := Follower;
      }
      var (myIndex, myTerm) := LastLog(log);
      var upToDate := lastTerm > myTerm || (lastTerm == myTerm && lastIndex >= myIndex);
      var canVote := votedFor.None? || votedFor == Some(candidate);
      if canVote && upToDate {
        votedFor := Some(candidate);
        store.SaveVotedFor(Some(candidate));
        return currentTerm, true;
      } else {
        return currentTerm, false;
      }
    }

    /** The append loop: walk the entries, truncate at the first conflict, push what is missing. */
    method AppendAll(prevIndex: nat, entries: seq<Entry>)
      requires prevIndex <= |log|
      modifies this`log
      ensures log == Merge(old(log), prevIndex, entries)
    {
      ghost var was := log;
      ghost var c := Agreeing(was, prevIndex, entries);
      var start := prevIndex;
      for i := 0 to |entries|
        invariant start == prevIndex + i
        invariant log == if i <= c then was else was[..prevIndex + c] + entries[c..i]
      {
        var e := entries[i];
        if start < |log| && log[start].term != e.term {
          log := log[..start];
        }
        if start >= |log| {
          log := log + [e];
        }
        start := start + 1;
      }
    }

    method HandleAppendEntries(term: nat, prevIndex: nat, prevTerm: nat, entries: seq<Entry>, leaderCommit: nat)
      returns (replyTerm: nat, success: bool)
      modifies this, store
      ensures State() == HandleAppend(old(State()), term, prevIndex, prevTerm, entries, leaderCommit)
      ensures store.writes == old(store.writes) + AppendWrites(old(State()), term)
      ensures replyTerm == currentTerm && success == AcceptsAppend(old(State()), term, prevIndex, prevTerm)
    {
      PersistFew(State().store, AppendWrites(State(), term));
      if term < currentTerm {
        return currentTerm, false;
      }
      if term > currentTerm {
        currentTerm := term;
        store.SaveTerm(currentTerm);
        role := Follower;
      }
      var prevOk := prevIndex == 0 || (prevIndex <= |log| && log[prevIndex - 1].term == prevTerm);
      if !prevOk {
        return currentTerm, false;
      }
      AppendAll(prevIndex, entries);
      if leaderCommit > commitIndex {
        commitIndex := Min(leaderCommit, |log|);
      }
      return currentTerm, true;
    }

    method LeaderAppend(data: seq<byte>) returns (index: nat)
      modifies this`log
      ensures State() == RaftNode.LeaderAppend(old(State()), data)
      ensures index == |log|
    {
      index := |log| + 1;
      log := log + [Entry(currentTerm, index, data)];
    }

    method RecordPeerAck(peer: NodeId, peerMatch: nat)
      modifies this
      ensures State() == RaftNode.RecordPeerAck(old(State()), peer, peerMatch)
    {
      var at := Position(peers, peer);
      if at.Some? && at.value < |matchIndex| && matchIndex[at.value] < peerMatch {
        matchIndex := matchIndex[at.value := peerMatch];
      }
      ghost var noted := State();
      assert noted == RecordMatch(old(State()), peer, peerMatch);
      var majority := |peers| / 2 + 1;
      var idx := commitIndex;
      while idx < |log|
        invariant 0 <= idx
        invariant AdvanceCommit(noted, idx) == AdvanceCommit(noted, commitIndex)
        invariant State() == noted
      {
        var next := idx + 1;
        var replicated := CountMatches(next);
        if 1 + replicated >= majority && log[next - 1].term == currentTerm {
          idx := next;
        } else {
          break;
        }
      }
      commitIndex := idx;
    }

    method CountMatches(idx: nat) returns (count: nat)
      ensures count == CountAtLeast(matchIndex, idx)
    {
      count := 0;
      for i := 0 to |matchIndex|
        invariant count == CountAtLeast(matchIndex[..i], idx)
      {
        assert matchIndex[..i + 1][..i] == matchIndex[..i];
        if matchIndex[i] >= idx {
          count := count + 1;
        }
      }
      assert matchIndex[..|matchIndex|] == matchIndex;
    }

    /** `out` is what the caller's `apply` closure was called with, in order. */
    method ApplyCommitted() returns (out: seq<Entry>)
      modifies this`lastApplied
      ensures State() == RaftNode.ApplyCommitted(old(State()))
      ensures out == ToApply(old(State()))
    {
      out := [];
      ghost var stop := Min(commitIndex, |log|);
      while lastApplied < commitIndex
        invariant old(lastApplied) <= lastApplied
        invariant old(lastApplied) < lastApplied ==> lastApplied <= stop
        invariant out == if old(lastApplied) < lastApplied then log[old(lastApplied)..lastApplied] else []
      {
        var next := lastApplied + 1;
        if next - 1 < |log| {
          out := out + [log[next - 1]];
          lastApplied := next;
        } else {
          break;
        }
      }
    }
  }
}
