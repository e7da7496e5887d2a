/** The Raft engine in its own, imperative form. Every method is one lock-held
    block; its contract says that the fields move as the corresponding function
    of RaftNode prescribes. Requests, replies and threads are arguments. */
module RaftService {
  import opened Common
  import opened RaftNode

  lemma PayloadsSnoc(log: Log, i: nat, j: nat)
    requires i <= j < |log|
    ensures Payloads(log[i..j + 1]) == Payloads(log[i..j]) + [log[j].data]
  {
    assert log[i..j + 1] == log[i..j] + [log[j]];
  }

  class ConsensusService {
    const self: NodeId
    const peers: seq<NodeId>

    var currentTerm: nat
    var votedFor: Option<NodeId>
    var log: Log
    var commitIndex: Index
    var lastApplied: Index
    var stateMachine: seq<Data>
    var nextIndex: map<NodeId, nat>
    var matchIndex: map<NodeId, Index>
    var role: Role
    var leaderId: Option<NodeId>

    ghost predicate Valid()
      reads this
    {
      && self !in peers
      && Distinct(peers)
      && nextIndex.Keys == matchIndex.Keys == set p | p in peers
    }

    function ClusterSize(): nat {
      |peers| + 1
    }

    function View(): Node
      reads this
    {
      Node(currentTerm, votedFor, log, commitIndex, lastApplied, stateMachine,
           nextIndex, matchIndex, role, leaderId)
    }

    constructor (self: NodeId, peers: seq<NodeId>)
      requires self !in peers && Distinct(peers)
      ensures Valid() && this.self == self && this.peers == peers
      ensures View() == InitialNode(set p | p in peers)
    {
      this.self, this.peers := self, peers;
      currentTerm, votedFor, log := 0, None, [];
      commitIndex, lastApplied, stateMachine := -1, -1, [];
      nextIndex := map p | p in peers :: 0;
      matchIndex := map p | p in peers :: -1;
      role, leaderId := Follower, None;
    }

    /** The timer block; `expired` is the outcome of comparing clocks. The returned
        triple is what the new election thread advertises. */
    method CheckElectionTimeout(expired: bool) returns (term: nat, lastIndex: Index, lastTerm: nat)
      requires Valid()
      modifies this
      ensures Valid()
      ensures View() == if expired then StartCampaign(old(View()), self) else old(View())
      ensures term == currentTerm && lastIndex == LastIndex(log) && lastTerm == LastTerm(log)
    {
      if expired {
        role := Candidate;
        currentTerm := currentTerm + 1;
        votedFor := Some(self);
      }
      term, lastIndex, lastTerm := currentTerm, LastIndex(log), LastTerm(log);
    }

    /** The block of the election thread that handles one vote reply. */
    method ReceiveVoteReply(campaignTerm: nat, votes: nat, replyTerm: nat, granted: bool)
      returns (counted: nat, stop: bool)
      requires Valid()
      modifies this
      ensures Valid()
      ensures View() == HandleVoteReply(old(View()), replyTerm)
      ensures stop <==> replyTerm > old(currentTerm)
      ensures counted == if !stop && CountsVote(old(View()), campaignTerm, granted) then votes + 1 else votes
    {
      counted, stop := votes, false;
      if replyTerm > currentTerm {
        currentTerm := replyTerm;
        role := Follower;
        votedFor := None;
        stop := true;
        return;
      }
      if role == Candidate && currentTerm == campaignTerm && granted {
        counted := votes + 1;
      }
    }

    /** A fresh leader's view of its peers. */
    method ResetPeers(next: nat)
      requires Valid()
      modifies `nextIndex, `matchIndex
      ensures nextIndex == map p | p in old(nextIndex) :: next
      ensures matchIndex == map p | p in old(matchIndex) :: -1
    {
      for i := 0 to |peers|
        invariant nextIndex.Keys == matchIndex.Keys == set p | p in peers
        invariant forall j :: 0 <= j < i ==> nextIndex[peers[j]] == next && matchIndex[peers[j]] == -1
      {
        nextIndex := nextIndex[peers[i] := next];
        matchIndex := matchIndex[peers[i] := -1];
      }
    }

    /** The last block of the election thread. */
    method FinishElection(campaignTerm: nat, votes: nat)
      requires Valid()
      modifies this
      ensures Valid()
      ensures View() == ConcludeElection(old(View()), self, campaignTerm, votes, ClusterSize())
    {
      if role == Candidate && currentTerm == campaignTerm {
        if votes > ClusterSize() / 2 {
          role := Leader;
          leaderId := Some(self);
          var next: nat := LastIndex(log) + 1;
          ResetPeers(next);
        }
      }
    }

    /** The block that prepares an append for one peer; nothing is sent unless leading. */
    method PrepareAppend(peer: NodeId) returns (args: Option<AppendArgs>)
      requires Valid() && peer in peers
      ensures args == if role == Leader then Some(BuildAppend(View(), self, peer)) else None
    {
      if role != Leader {
        return None;
      }
      var next := nextIndex[peer];
      var prevIndex := next - 1;
      var prevTerm := 0;
      if prevIndex >= 0 && prevIndex < |log| {
        prevTerm := log[prevIndex].term;
      }
      var entries := if next <= |log| then log[next..] else [];
      args := Some(AppendArgs(currentTerm, self, prevIndex, prevTerm, entries, commitIndex));
    }

    /** The block that handles the reply to an append. */
    method ReceiveAppendReply(peer: NodeId, sent: AppendArgs, replyTerm: nat, success: bool)
      requires Valid() && peer in peers
      modifies this
      ensures Valid()
      ensures View() == RaftNode.HandleAppendReply(old(View()), peer, sent, replyTerm, success, ClusterSize())
    {
      if role != Leader || currentTerm != sent.term {
        return;
      }
      if replyTerm > currentTerm {
        currentTerm := replyTerm;
        role := Follower;
        votedFor := None;
        return;
      }
      if success {
        if sent.entries != [] {
          matchIndex := matchIndex[peer := EndIndex(sent)];
          nextIndex := nextIndex[peer := matchIndex[peer] + 1];
          assert View() == RecordAck(old(View()), peer, EndIndex(sent));
          AdvanceCommitIndex();
        }
      } else {
        nextIndex := nextIndex[peer := Max(0, nextIndex[peer] as int - 1)];
      }
    }

    /** Counts the leader and the peers that hold `index`, one dictionary item at a time. */
    method CountHolders(index: Index) returns (count: nat)
      requires Valid()
      ensures count == 1 + |Holders(matchIndex, index)|
    {
      count := 1;
      var rest := matchIndex.Keys;
      assert Holders(matchIndex, index) * rest == Holders(matchIndex, index);
      while rest != {}
        invariant rest <= matchIndex.Keys
        invariant count + |Holders(matchIndex, index) * rest| == 1 + |Holders(matchIndex, index)|
      {
        var p :| p in rest;
        CountOneLess(Holders(matchIndex, index), rest, p);
        rest := rest - {p};
        if matchIndex[p] >= index {
          count := count + 1;
        }
      }
    }

    /** The downward search for the commit index. */
    method AdvanceCommitIndex()
      requires Valid()
      modifies `commitIndex, `lastApplied, `stateMachine
      ensures View() == RaftNode.UpdateCommitIndex(old(View()), ClusterSize())
    {
      var index: int := LastIndex(log);
      ghost var before := View();
      while index > commitIndex
        invariant index <= LastIndex(log)
        invariant View() == before
        invariant CommitTarget(before, ClusterSize(), LastIndex(log)) == CommitTarget(before, ClusterSize(), index)
        decreases index - commitIndex
      {
        if log[index].term == currentTerm {
          var count := CountHolders(index);
          if count > ClusterSize() / 2 {
            commitIndex := index;
            ApplyCommitted();
            return;
          }
        }
        index := index - 1;
      }
    }

    /** Applies entries one at a time until lastApplied reaches commitIndex. */
    method ApplyCommitted()
      requires Valid() && commitIndex < |log|
      modifies `lastApplied, `stateMachine
      ensures View() == ApplyLogs(old(View()))
    {
      ghost var start := lastApplied;
      while lastApplied < commitIndex
        invariant lastApplied == start || start < lastApplied <= commitIndex
        invariant start <= lastApplied < |log| || lastApplied == start
        invariant stateMachine == old(stateMachine)
                                  + if lastApplied == start then [] else Payloads(log[start + 1..lastApplied + 1])
      {
        lastApplied := lastApplied + 1;
        var entry := log[lastApplied];
        stateMachine := stateMachine + [entry.data];
        PayloadsSnoc(log, start + 1, lastApplied);
      }
      assert old(stateMachine) + [] == old(stateMachine);
    }

    method ReceiveRequestVote(term: nat, candidate: NodeId, lastIndex: Index, lastTerm: nat)
      returns (replyTerm: nat, granted: bool)
      requires Valid()
      modifies this
      ensures Valid()
      ensures View() == RaftNode.HandleRequestVote(old(View()), term, candidate, lastIndex, lastTerm)
      ensures granted == GrantsVote(old(View()), term, candidate, lastIndex, lastTerm)
      ensures replyTerm == currentTerm
    {
      if term > currentTerm {
        currentTerm := term;
        role := Follower;
        votedFor := None;
      }
      granted := false;
      if term == currentTerm {
        if votedFor == None || votedFor == Some(candidate) {
          var myLastTerm := LastTerm(log);
          var myLastIndex := LastIndex(log);
          if lastTerm > myLastTerm || (lastTerm == myLastTerm && lastIndex >= myLastIndex) {
            granted := true;
            votedFor := Some(candidate);
          }
        }
      }
      replyTerm := currentTerm;
    }

    method ReceiveAppendEntries(args: AppendArgs) returns (replyTerm: nat, success: bool)
      requires Valid()
      modifies this
      ensures Valid()
      ensures View() == RaftNode.HandleAppendEntries(old(View()), args)
      ensures success == AppendSucceeds(old(View()), args)
      ensures replyTerm == currentTerm
    {
      if args.term > currentTerm {
        currentTerm := args.term;
        role := Follower;
        votedFor := None;
      }
      if args.term < currentTerm {
        return currentTerm, false;
      }
      leaderId := Some(args.leader);
      role := Follower;
      if args.prevIndex >= 0 {
        if args.prevIndex >= |log| {
          return currentTerm, false;
        }
        if log[args.prevIndex].term != args.prevTerm {
          log := log[..args.prevIndex];
          return currentTerm, false;
        }
      }
      if args.entries != [] {
        var insertAt := args.prevIndex + 1;
        log := log[..insertAt] + args.entries;
      }
      CommitUpTo(args.leaderCommit);
      return currentTerm, true;
    }

    /** The commit part of an accepted append. */
    method CommitUpTo(leaderCommit: Index)
      requires Valid()
      modifies `commitIndex, `lastApplied, `stateMachine
      ensures View() == RaftNode.FollowCommit(old(View()), leaderCommit)
    {
      if leaderCommit > commitIndex {
        commitIndex := Min(leaderCommit, LastIndex(log));
        ApplyCommitted();
      }
    }

    /** Only the leader accepts; the result is the index and term of the new entry. */
    method Submit(data: Data) returns (placed: Option<(Index, nat)>)
      requires Valid()
      modifies this
      ensures Valid()
      ensures View() == RaftNode.Propose(old(View()), data)
      ensures placed == if old(role) == Leader then Some((LastIndex(log), currentTerm)) else None
    {
      if role != Leader {
        return None;
      }
      log := log + [Entry(currentTerm, data)];
      placed := Some((LastIndex(log), currentTerm));
    }
  }
}
