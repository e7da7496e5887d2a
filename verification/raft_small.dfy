/** Clusters of one or two nodes: whatever the order of appends, State Machine Safety
    holds, because every leader needs the vote of the leader before it. */
module RaftSmall {
  import opened Common
  import opened RaftNode
  import opened RaftCluster
  import opened RaftInvariant
  import opened RaftPreservation
  import opened RaftSafety
  import opened RaftSafetyPreservation
  import opened RaftTheorems

  // ------------------------------------------------------------------ invariant

  /** A node has every entry of its own that it put into its log as a leader. */
  ghost predicate LedKept(h: History, n: NodeId, log: Log) {
    forall t: nat, k: nat {:trigger OwnEntry(h, t, k)} ::
      OwnEntry(h, t, k) && h.reigns[t].leader == n ==> Holds(h, t, k, log)
  }

  ghost predicate LedKeptAll(h: History, nodes: map<NodeId, Node>) {
    forall n {:trigger LedKept(h, n, nodes[n].log)} :: n in nodes ==> LedKept(h, n, nodes[n].log)
  }

  /** A candidate has every entry of the earlier leaders that voted for it. */
  ghost predicate LedVote(h: History, seat: Seat)
    requires seat in h.votes && Seat(h.votes[seat], seat.term) in h.campaigns
  {
    forall t: nat, k: nat {:trigger OwnEntry(h, t, k)} ::
      OwnEntry(h, t, k) && t < seat.term && h.reigns[t].leader == seat.node ==>
        Holds(h, t, k, h.campaigns[Seat(h.votes[seat], seat.term)])
  }

  ghost predicate LedVotes(h: History) {
    forall seat {:trigger Seat(h.votes[seat], seat.term)} ::
      seat in h.votes ==> Seat(h.votes[seat], seat.term) in h.campaigns && LedVote(h, seat)
  }

  /** A leader starts with every entry of every earlier leader. */
  ghost predicate LedStart(h: History, u: nat)
    requires u in h.reigns
  {
    forall t: nat, k: nat {:trigger OwnEntry(h, t, k)} ::
      OwnEntry(h, t, k) && t < u ==> Holds(h, t, k, h.reigns[u].start)
  }

  ghost predicate LedStarts(h: History) {
    forall u {:trigger LedStart(h, u)} :: u in h.reigns ==> LedStart(h, u)
  }

  /** What a node has applied is the data of a committed prefix, which its log may have
      lost for a while. */
  ghost predicate AppliedAs(c: Config, h: History, node: Node, p: Log) {
    && SafePrefix(c, h, node.currentTerm, p) && |p| == node.commitIndex + 1
    && node.lastApplied == node.commitIndex && node.stateMachine == Payloads(p)
  }

  ghost predicate AppliedSome(c: Config, h: History, node: Node) {
    exists p: Log {:trigger AppliedAs(c, h, node, p)} :: AppliedAs(c, h, node, p)
  }

  ghost predicate AppliedSomeAll(c: Config, h: History, nodes: map<NodeId, Node>) {
    forall n {:trigger AppliedSome(c, h, nodes[n])} :: n in nodes ==> AppliedSome(c, h, nodes[n])
  }

  ghost predicate SmallInv(c: Config, s: Cluster) {
    && LedKeptAll(s.history, s.nodes)
    && LedVotes(s.history)
    && LedStarts(s.history)
    && AppliedSomeAll(c, s.history, s.nodes)
    && AllCarried(c, s.history, s.net)
  }

  ghost predicate Small(c: Config) {
    c.Valid() && |c.members| <= 2
  }

  lemma StartsFollow(h: History)
    requires LedStarts(h)
    ensures StartsInv(h)
  {
    forall u | u in h.reigns
      ensures StartInv(h, u)
    {
      assert LedStart(h, u);
    }
  }

  /** In a cluster of at most two nodes a majority is everyone. */
  lemma EveryoneVoted(c: Config, voters: set<NodeId>, n: NodeId)
    requires Small(c) && voters <= c.Nodes() && c.Majority(voters) && n in c.Nodes()
    ensures n in voters
  {
    MemberCount(c);
    if n !in voters {
      SubsetSize(voters + {n}, c.Nodes());
    }
  }

  // --------------------------------------------------------------------- frames

  /** The history moves by acts of node n, which adds entries of its own only in the
      given term, and has not voted beyond it. */
  ghost predicate Adds(c: Config, h: History, h': History, n: NodeId, term: nat) {
    && HistoryInv(c, h) && Extends(h, h') && SeatsWithin(h, n, term) && n in c.Nodes()
    && forall t: nat, k: nat {:trigger OwnEntry(h', t, k)} ::
         OwnEntry(h', t, k) && !OwnEntry(h, t, k) ==> t == term && h'.reigns[t].leader == n
  }

  lemma LedKeptFrame(c: Config, h: History, h': History, n: NodeId, term: nat, m: NodeId, log: Log, log': Log)
    requires Adds(c, h, h', n, term) && LedKept(h, m, log) && log <= log'
    requires forall k: nat {:trigger OwnEntry(h', term, k)} ::
               m == n && OwnEntry(h', term, k) && !OwnEntry(h, term, k) ==> Holds(h', term, k, log')
    ensures LedKept(h', m, log')
  {
    forall t: nat, k: nat | OwnEntry(h', t, k) && h'.reigns[t].leader == m
      ensures Holds(h', t, k, log')
    {
      if OwnEntry(h, t, k) {
        assert ReignGrows(h.reigns[t], h'.reigns[t]);
        HoldsMono(h, h', t, k, log, log');
      }
    }
  }

  ghost predicate NewVotesLed(h: History, h': History) {
    forall seat {:trigger Seat(h'.votes[seat], seat.term)} :: seat in h'.votes && seat !in h.votes ==>
      Seat(h'.votes[seat], seat.term) in h'.campaigns && LedVote(h', seat)
  }

  lemma LedVotesFrame(c: Config, h: History, h': History, n: NodeId, term: nat)
    requires Adds(c, h, h', n, term) && LedVotes(h) && NewVotesLed(h, h')
    ensures LedVotes(h')
  {
    forall seat | seat in h'.votes && seat in h.votes
      ensures Seat(h'.votes[seat], seat.term) in h'.campaigns && LedVote(h', seat)
    {
      assert Seat(h.votes[seat], seat.term) in h.campaigns && LedVote(h, seat);
      var log := h.campaigns[Seat(h.votes[seat], seat.term)];
      forall t: nat, k: nat | OwnEntry(h', t, k) && t < seat.term && h'.reigns[t].leader == seat.node
        ensures Holds(h', t, k, log)
      {
        assert OwnEntry(h, t, k) by {
          assert seat.node == n ==> Seat(n, seat.term) in h.votes;
        }
        assert ReignGrows(h.reigns[t], h'.reigns[t]);
        HoldsMono(h, h', t, k, log, log);
      }
    }
  }

  lemma LedStartsFrame(c: Config, h: History, h': History, n: NodeId, term: nat)
    requires Small(c) && Adds(c, h, h', n, term) && LedStarts(h)
    requires forall u {:trigger LedStart(h', u)} :: u in h'.reigns && u !in h.reigns ==> LedStart(h', u)
    ensures LedStarts(h')
  {
    forall u | u in h'.reigns && u in h.reigns
      ensures LedStart(h', u)
    {
      assert LedStart(h, u) && ReignInv(c, h, u);
      assert ReignGrows(h.reigns[u], h'.reigns[u]);
      var log := h.reigns[u].start;
      forall t: nat, k: nat | OwnEntry(h', t, k) && t < u
        ensures Holds(h', t, k, log)
      {
        EveryoneVoted(c, h.reigns[u].voters, n);
        assert Voted(h, n, u, h.reigns[u].leader);
        assert OwnEntry(h, t, k);
        HoldsMono(h, h', t, k, log, log);
      }
    }
  }

  lemma AppliedSomeMono(c: Config, h: History, h': History, node: Node, node': Node)
    requires Extends(h, h') && AppliedSome(c, h, node) && node.currentTerm <= node'.currentTerm
    requires node'.commitIndex == node.commitIndex && node'.lastApplied == node.lastApplied
    requires node'.stateMachine == node.stateMachine
    ensures AppliedSome(c, h', node')
  {
    var p: Log :| AppliedAs(c, h, node, p);
    SafePrefixMono(c, h, h', node.currentTerm, node'.currentTerm, p);
    assert AppliedAs(c, h', node', p);
  }

  lemma AssembleSmall(c: Config, s: Cluster, s': Cluster, n: NodeId, term: nat)
    requires SmallInv(c, s) && n in s.nodes && n in s'.nodes
    requires s'.nodes == s.nodes[n := s'.nodes[n]]
    requires Adds(c, s.history, s'.history, n, term)
    requires LedKept(s'.history, n, s'.nodes[n].log) && AppliedSome(c, s'.history, s'.nodes[n])
    requires LedVotes(s'.history) && LedStarts(s'.history) && AllCarried(c, s'.history, s'.net)
    ensures SmallInv(c, s')
  {
    forall m | m in s'.nodes
      ensures LedKept(s'.history, m, s'.nodes[m].log) && AppliedSome(c, s'.history, s'.nodes[m])
    {
      if m != n {
        assert LedKept(s.history, m, s.nodes[m].log) && AppliedSome(c, s.history, s.nodes[m]);
        LedKeptFrame(c, s.history, s'.history, n, term, m, s.nodes[m].log, s.nodes[m].log);
        AppliedSomeMono(c, s.history, s'.history, s.nodes[m], s.nodes[m]);
      }
    }
  }

  /** A step of one node that leaves the history, its log and what it applied alone. */
  lemma QuietSmall(c: Config, s: Cluster, s': Cluster, n: NodeId)
    requires SmallInv(c, s) && n in s.nodes && s'.history == s.history
    requires n in s'.nodes && s'.nodes == s.nodes[n := s'.nodes[n]]
    requires s'.nodes[n].log == s.nodes[n].log && AppliedSome(c, s.history, s'.nodes[n])
    requires AllCarried(c, s.history, s'.net)
    ensures SmallInv(c, s')
  {
    forall m | m in s'.nodes
      ensures LedKept(s'.history, m, s'.nodes[m].log) && AppliedSome(c, s'.history, s'.nodes[m])
    {
      assert LedKept(s.history, m, s.nodes[m].log) && AppliedSome(c, s.history, s.nodes[m]);
    }
  }

  // ------------------------------------------------------------------ elections

  lemma InitSmall(c: Config)
    ensures SmallInv(c, Init(c))
  {
    var s := Init(c);
    forall n | n in s.nodes
      ensures LedKept(s.history, n, s.nodes[n].log) && AppliedSome(c, s.history, s.nodes[n])
    {
      assert AppliedAs(c, s.history, s.nodes[n], []);
    }
  }

  lemma SameReigns(c: Config, h: History, h': History, n: NodeId, term: nat)
    requires HistoryInv(c, h) && Extends(h, h') && SeatsWithin(h, n, term) && n in c.Nodes()
    requires h'.reigns == h.reigns
    ensures Adds(c, h, h', n, term)
  {
    assert forall t: nat, k: nat {:trigger OwnEntry(h', t, k)} :: OwnEntry(h', t, k) ==> OwnEntry(h, t, k);
  }

  /** The steps that only add to votes and campaigns: everything but the new vote is framed. */
  lemma VotingSmall(c: Config, s: Cluster, s': Cluster, n: NodeId)
    requires Small(c) && Inv(c, s) && SmallInv(c, s) && n in s.nodes && n in s'.nodes
    requires s'.nodes == s.nodes[n := s'.nodes[n]] && Extends(s.history, s'.history)
    requires s'.history.reigns == s.history.reigns && s'.net.appends == s.net.appends
    requires s'.nodes[n].log == s.nodes[n].log && s.nodes[n].currentTerm <= s'.nodes[n].currentTerm
    requires s'.nodes[n].commitIndex == s.nodes[n].commitIndex && s'.nodes[n].lastApplied == s.nodes[n].lastApplied
    requires s'.nodes[n].stateMachine == s.nodes[n].stateMachine
    requires NewVotesLed(s.history, s'.history)
    ensures SmallInv(c, s')
  {
    var h, h', node := s.history, s'.history, s.nodes[n];
    assert NodeInv(h, n, node) && LedKept(h, n, node.log) && AppliedSome(c, h, node);
    SameReigns(c, h, h', n, node.currentTerm);
    LedKeptFrame(c, h, h', n, node.currentTerm, n, node.log, node.log);
    LedVotesFrame(c, h, h', n, node.currentTerm);
    LedStartsFrame(c, h, h', n, node.currentTerm);
    AppliedSomeMono(c, h, h', node, s'.nodes[n]);
    CarriedMono(c, h, h', s.net);
    AssembleSmall(c, s, s', n, node.currentTerm);
  }

  /** A new vote, for a candidate whose log has what the voter put there as a leader. */
  lemma NewLedVote(h: History, h': History, seat: Seat, log: Log)
    requires h'.reigns == h.reigns && seat in h'.votes && Seat(h'.votes[seat], seat.term) in h'.campaigns
    requires h'.campaigns[Seat(h'.votes[seat], seat.term)] == log && LedKept(h, seat.node, log)
    ensures LedVote(h', seat)
  {
    forall t: nat, k: nat | OwnEntry(h', t, k) && t < seat.term && h'.reigns[t].leader == seat.node
      ensures Holds(h', t, k, log)
    {
      assert OwnEntry(h, t, k);
    }
  }

  lemma TimeoutSmall(c: Config, s: Cluster, n: NodeId)
    requires Small(c) && Inv(c, s) && SmallInv(c, s) && n in s.nodes
    ensures SmallInv(c, AfterTimeout(c, s, n))
  {
    var s' := AfterTimeout(c, s, n);
    var node := s.nodes[n];
    var seat := Seat(n, node.currentTerm + 1);
    assert NodeInv(s.history, n, node) && LedKept(s.history, n, node.log);
    CampaignActs(s.history, seat, node.log);
    NewLedVote(s.history, s'.history, seat, node.log);
    VotingSmall(c, s, s', n);
  }

  /** The candidate's log has what the voter put into its own as a leader. */
  lemma GrantKeepsLed(c: Config, h: History, n: NodeId, log: Log, candidate: Log)
    requires HistoryInv(c, h) && LedStarts(h) && LedKept(h, n, log) && Backed(h, log) && Backed(h, candidate)
    requires UpToDate(LastTerm(candidate), LastIndex(candidate), log)
    ensures LedKept(h, n, candidate)
  {
    forall t: nat, k: nat | OwnEntry(h, t, k) && h.reigns[t].leader == n
      ensures Holds(h, t, k, candidate)
    {
      var u := LastTerm(candidate);
      assert u in h.reigns ==> LedStart(h, u);
      UpToDateCarries(c, h, t, k, log, candidate);
    }
  }

  lemma VoteRequestSmall(c: Config, s: Cluster, req: VoteRequest)
    requires Small(c) && Inv(c, s) && SmallInv(c, s) && req in s.net.voteRequests && req.to in s.nodes
    ensures SmallInv(c, AfterVoteRequest(s, req))
  {
    var s' := AfterVoteRequest(s, req);
    var h, n, node := s.history, req.to, s.nodes[req.to];
    assert NodeInv(h, n, node) && LedKept(h, n, node.log) && VoteRequestInv(h, req);
    if GrantsVote(node, req.term, req.candidate, req.lastIndex, req.lastTerm) {
      var seat, log := Seat(n, req.term), h.campaigns[Seat(req.candidate, req.term)];
      VoteActs(h, seat, req.candidate);
      assert CampaignInv(c, h, Seat(req.candidate, req.term));
      GrantKeepsLed(c, h, n, node.log, log);
      NewLedVote(h, s'.history, seat, log);
    }
    VotingSmall(c, s, s', n);
  }

  lemma VoteReplySmall(c: Config, s: Cluster, reply: VoteReply)
    requires SmallInv(c, s) && Enabled(c, s, ReceiveVote(reply))
    ensures SmallInv(c, AfterVoteReply(s, reply))
  {
    var n, s' := reply.request.candidate, AfterVoteReply(s, reply);
    assert AppliedSome(c, s.history, s.nodes[n]);
    AppliedSomeMono(c, s.history, s.history, s.nodes[n], s'.nodes[n]);
    QuietSmall(c, s, s', n);
  }

  /** A winner has everything: every earlier leader voted for it. */
  lemma WinLedStart(c: Config, h: History, h': History, seat: Seat)
    requires Small(c) && HistoryInv(c, h') && LedVotes(h) && h'.votes == h.votes && h'.campaigns == h.campaigns
    requires seat.term in h'.reigns && h'.reigns[seat.term].leader == seat.node && seat.term !in h.reigns
    requires forall t :: t in h'.reigns && t != seat.term ==> t in h.reigns && h'.reigns[t] == h.reigns[t]
    ensures LedStart(h', seat.term)
  {
    var log := h'.reigns[seat.term].start;
    assert ReignInv(c, h', seat.term);
    forall t: nat, k: nat | OwnEntry(h', t, k) && t < seat.term
      ensures Holds(h', t, k, log)
    {
      assert OwnEntry(h, t, k) && ReignInv(c, h', t);
      var v := Seat(h'.reigns[t].leader, seat.term);
      EveryoneVoted(c, h'.reigns[seat.term].voters, v.node);
      assert Voted(h', v.node, seat.term, seat.node);
      assert Seat(h.votes[v], v.term) in h.campaigns && LedVote(h, v);
    }
  }

  /** A leader has no entry of its own when it starts. */
  lemma WinAdds(c: Config, h: History, seat: Seat, voters: set<NodeId>, log: Log)
    requires HistoryInv(c, h) && SeatsWithin(h, seat.node, seat.term) && seat.node in c.Nodes()
    requires seat.term !in h.reigns && seat !in h.accepted && TermsBelow(log, seat.term)
    ensures Adds(c, h, RecordWin(h, seat, voters, log), seat.node, seat.term)
  {
    WinActs(h, seat, voters, log);
  }

  lemma WinSmall(c: Config, s: Cluster, seat: Seat)
    requires Small(c) && Inv(c, s) && SmallInv(c, s) && seat in s.elections && seat.node in s.nodes
    requires WinsElection(s.nodes[seat.node], seat.term, s.elections[seat].votes, |c.members|)
    ensures SmallInv(c, AfterElection(c, s, seat))
  {
    var s' := AfterElection(c, s, seat);
    var h, h' := s.history, s'.history;
    var n, node, e := seat.node, s.nodes[seat.node], s.elections[seat];
    assert NodeInv(h, n, node) && LedKept(h, n, node.log) && AppliedSome(c, h, node);
    assert ElectionInv(c, h, seat, e);
    assert CampaignInv(c, h, seat);
    FreshTerm(c, h, seat, e);
    assert seat !in h.accepted by {
      assert seat in h.accepted ==> AcceptedInv(c, h, seat);
    }
    FinishElectionInv(c, s, seat);
    WinAdds(c, h, seat, e.granted + {n}, node.log);
    WinLedStart(c, h, h', seat);
    LedKeptFrame(c, h, h', n, seat.term, n, node.log, node.log);
    LedVotesFrame(c, h, h', n, seat.term);
    LedStartsFrame(c, h, h', n, seat.term);
    AppliedSomeMono(c, h, h', node, s'.nodes[n]);
    CarriedMono(c, h, h', s.net);
    AssembleSmall(c, s, s', n, seat.term);
  }

  lemma FinishElectionSmall(c: Config, s: Cluster, seat: Seat)
    requires Small(c) && Inv(c, s) && SmallInv(c, s) && seat in s.elections && seat.node in s.nodes
    ensures SmallInv(c, AfterElection(c, s, seat))
  {
    if WinsElection(s.nodes[seat.node], seat.term, s.elections[seat].votes, |c.members|) {
      WinSmall(c, s, seat);
    } else {
      assert AppliedSome(c, s.history, s.nodes[seat.node]);
      QuietSmall(c, s, AfterElection(c, s, seat), seat.node);
    }
  }

  // --------------------------------------------------------------- leader steps

  lemma SubmitSmall(c: Config, s: Cluster, n: NodeId, data: Data)
    requires Small(c) && Inv(c, s) && SmallInv(c, s) && n in s.nodes && s.nodes[n].role == Leader
    ensures SmallInv(c, AfterSubmit(s, n, data))
  {
    var s' := AfterSubmit(s, n, data);
    var h, h', node, node' := s.history, s'.history, s.nodes[n], s'.nodes[n];
    var term := node.currentTerm;
    assert NodeInv(h, n, node) && LedKept(h, n, node.log) && AppliedSome(c, h, node);
    EntryActs(h, Seat(n, term), node'.log);
    assert Adds(c, h, h', n, term);
    LedKeptFrame(c, h, h', n, term, n, node.log, node'.log);
    LedVotesFrame(c, h, h', n, term);
    LedStartsFrame(c, h, h', n, term);
    AppliedSomeMono(c, h, h', node, node');
    CarriedMono(c, h, h', s.net);
    AssembleSmall(c, s, s', n, term);
  }

  /** What a leader has applied is a prefix of its log. */
  lemma LeaderApplied(c: Config, h: History, n: NodeId, node: Node)
    requires Small(c) && HistoryInv(c, h) && LedStarts(h) && LeaderInv(h, n, node) && AppliedSome(c, h, node)
    ensures AppliedInv(c, h, node)
  {
    var p: Log :| AppliedAs(c, h, node, p);
    StartsFollow(h);
    SafePrefixOfReign(c, h, node.currentTerm, p, node.currentTerm);
    assert node.log[..node.commitIndex + 1] == p;
  }

  lemma AppliedIsSome(c: Config, h: History, node: Node)
    requires AppliedInv(c, h, node)
    ensures AppliedSome(c, h, node)
  {
    assert AppliedAs(c, h, node, node.log[..node.commitIndex + 1]);
  }

  lemma SendAppendSmall(c: Config, s: Cluster, n: NodeId, peer: NodeId)
    requires Small(c) && Inv(c, s) && SmallInv(c, s) && n in s.nodes && peer in s.nodes[n].nextIndex
    requires s.nodes[n].role == Leader
    ensures SmallInv(c, AfterSendAppend(s, n, peer))
  {
    var s' := AfterSendAppend(s, n, peer);
    var node := s.nodes[n];
    assert NodeInv(s.history, n, node) && AppliedSome(c, s.history, node);
    LeaderApplied(c, s.history, n, node);
    assert AllCarried(c, s.history, s'.net);
  }

  lemma AppendReplySmall(c: Config, s: Cluster, r: AppendReply)
    requires Small(c) && Inv(c, s) && SmallInv(c, s) && Enabled(c, s, ReceiveAppendReply(r))
    requires r.append.to in s.nodes[r.append.args.leader].nextIndex
    ensures SmallInv(c, AfterAppendReply(c, s, r))
  {
    var n, s' := r.append.args.leader, AfterAppendReply(c, s, r);
    var h, node, node' := s.history, s.nodes[n], s'.nodes[n];
    assert NodeInv(h, n, node) && KnowsPeers(c, n, node);
    assert AppendReplyInv(c, h, r);
    assert AppliedSome(c, h, node);
    CreditIsSound(c, h, n, node, r);
    if node.role == Leader {
      LeaderApplied(c, h, n, node);
    }
    ReplyAppliesSome(c, h, n, node, r, node');
    QuietSmall(c, s, s', n);
  }

  lemma ReplyAppliesSome(c: Config, h: History, n: NodeId, node: Node, r: AppendReply, node': Node)
    requires CreditSound(h, n, node, r) && KnowsPeers(c, n, node) && n in c.Nodes() && r.append.to in Peers(c, n)
    requires AppliedSome(c, h, node) && (node.role == Leader ==> AppliedInv(c, h, node))
    requires node' == HandleAppendReply(node, r.append.to, r.append.args, r.term, r.success, |c.members|)
    ensures AppliedSome(c, h, node') && node'.log == node.log
  {
    ReplyFields(node, r, |c.members|);
    if CountsAck(node, r) {
      AckApplied(c, h, n, node, r);
      AppliedIsSome(c, h, node');
    } else {
      AppliedSomeMono(c, h, h, node, node');
    }
  }

  // ------------------------------------------------------------ handling appends

  /** An append removes nothing that both the log and the sender's log have. */
  lemma SharedKept(c: Config, h: History, m: Append, log: Log, p: Log)
    requires HistoryInv(c, h) && AppendInv(c, h, m) && Backed(h, log) && p <= log && p <= m.built
    ensures p <= LogAfterAppend(log, m.args.prevIndex, m.args.prevTerm, m.args.entries)
  {
    AppendEffect(c, h, m, log);
    if 0 <= m.args.prevIndex < |p| {
      assert p[m.args.prevIndex] == log[m.args.prevIndex] == m.built[m.args.prevIndex];
    }
  }

  /** A node keeps what it put into its log as a leader: a later leader started with it. */
  lemma AppendKeepsLed(c: Config, h: History, n: NodeId, node: Node, m: Append)
    requires HistoryInv(c, h) && AppendInv(c, h, m) && NodeInv(h, n, node) && m.to == n
    requires LedStarts(h) && LedKept(h, n, node.log)
    ensures LedKept(h, n, NewLog(node, m.args))
  {
    var log' := NewLog(node, m.args);
    forall t: nat, k: nat | OwnEntry(h, t, k) && h.reigns[t].leader == n
      ensures Holds(h, t, k, log')
    {
      assert ReignInv(c, h, t) && Seat(n, t) in h.campaigns;
      LedEntryKept(c, h, node, m, t, k);
    }
  }

  lemma LedEntryKept(c: Config, h: History, node: Node, m: Append, t: nat, k: nat)
    requires HistoryInv(c, h) && AppendInv(c, h, m) && Backed(h, node.log) && LedStarts(h)
    requires OwnEntry(h, t, k) && h.reigns[t].leader == m.to && t <= node.currentTerm && Holds(h, t, k, node.log)
    ensures Holds(h, t, k, NewLog(node, m.args))
  {
    assert LedStart(h, m.args.term);
    if m.args.term >= node.currentTerm {
      assert t < m.args.term;
      SharedKept(c, h, m, node.log, h.reigns[t].log[..k]);
    }
  }

  /** What a node has applied is a prefix of the log of any leader from then on. */
  lemma AppliedOfReign(c: Config, h: History, node: Node, m: Append, p: Log)
    requires Small(c) && HistoryInv(c, h) && AppendInv(c, h, m) && Backed(h, node.log) && LedStarts(h)
    requires AppliedAs(c, h, node, p) && m.args.leaderCommit < |m.built|
    ensures AppendSucceeds(node, m.args) ==> m.built <= NewLog(node, m.args)
    ensures AppendSucceeds(node, m.args) && m.args.leaderCommit > node.commitIndex ==> p <= m.built
  {
    if AppendSucceeds(node, m.args) {
      AppendEffect(c, h, m, node.log);
      StartsFollow(h);
      SafePrefixOfReign(c, h, node.currentTerm, p, m.args.term);
    }
  }

  /** An accepted append whose commit index is ahead: what it adds follows on what the
      node has applied, because both are prefixes of the leader's log. */
  lemma AppendAppliesSome(c: Config, h: History, node: Node, m: Append, p: Log, node': Node)
    requires AppliedAs(c, h, node, p) && CarriedCommit(c, h, m) && node' == HandleAppendEntries(node, m.args)
    requires AppendSucceeds(node, m.args) ==> m.built <= NewLog(node, m.args)
    requires AppendSucceeds(node, m.args) && m.args.leaderCommit > node.commitIndex ==> p <= m.built
    ensures AppliedSome(c, h, node')
  {
    if AppendSucceeds(node, m.args) && m.args.leaderCommit > node.commitIndex {
      AppliesUpTo(node, m.args, p, m.built);
      HandleAppendFields(node, m.args);
      assert AppliedAs(c, h, node', m.built[..m.args.leaderCommit + 1]);
    } else {
      AppendAppliesNothing(c, h, node, m.args, node');
    }
  }

  lemma AppendAppliesNothing(c: Config, h: History, node: Node, a: AppendArgs, node': Node)
    requires AppliedSome(c, h, node) && node' == HandleAppendEntries(node, a)
    requires !AppendSucceeds(node, a) || a.leaderCommit <= node.commitIndex
    ensures AppliedSome(c, h, node')
  {
    HandleAppendFields(node, a);
    AppendLeavesApplied(node, a);
    AppliedSomeMono(c, h, h, node, node');
  }

  lemma AppendLeavesApplied(node: Node, a: AppendArgs)
    requires !AppendSucceeds(node, a) || a.leaderCommit <= node.commitIndex
    ensures var node' := HandleAppendEntries(node, a);
            && node'.commitIndex == node.commitIndex && node'.lastApplied == node.lastApplied
            && node'.stateMachine == node.stateMachine
  {
  }

  lemma AppliesUpTo(node: Node, a: AppendArgs, p: Log, built: Log)
    requires AppendSucceeds(node, a) && node.commitIndex < a.leaderCommit < |built|
    requires |p| == node.commitIndex + 1 && node.lastApplied == node.commitIndex && p <= built
    requires node.stateMachine == Payloads(p)
    requires built <= LogAfterAppend(node.log, a.prevIndex, a.prevTerm, a.entries)
    ensures var node' := HandleAppendEntries(node, a);
            && node'.commitIndex == node'.lastApplied == a.leaderCommit
            && node'.stateMachine == Payloads(built[..a.leaderCommit + 1])
  {
    var added := built[node.commitIndex + 1..a.leaderCommit + 1];
    assert built[..a.leaderCommit + 1] == p + added;
    PayloadsConcat(p, added);
    var log' := LogAfterAppend(node.log, a.prevIndex, a.prevTerm, a.entries);
    assert log'[node.commitIndex + 1..a.leaderCommit + 1] == added;
  }

  lemma HandleAppendSmall(c: Config, s: Cluster, m: Append)
    requires Small(c) && Inv(c, s) && SmallInv(c, s) && m in s.net.appends && m.to in s.nodes
    ensures SmallInv(c, AfterAppend(s, m))
  {
    var s', n := AfterAppend(s, m), m.to;
    var h, h', node, node' := s.history, s'.history, s.nodes[n], s'.nodes[n];
    assert NodeInv(h, n, node) && LedKept(h, n, node.log) && AppliedSome(c, h, node);
    assert AppendInv(c, h, m) && CarriedCommit(c, h, m);
    AppendHistory(c, h, n, node, m);
    AppendKeepsLed(c, h, n, node, m);
    var p: Log :| AppliedAs(c, h, node, p);
    AppliedOfReign(c, h, node, m, p);
    AppendAppliesSome(c, h, node, m, p, node');
    HandleAppendFields(node, m.args);
    SameReigns(c, h, h', n, node.currentTerm);
    LedKeptFrame(c, h, h', n, node.currentTerm, n, node'.log, node'.log);
    LedVotesFrame(c, h, h', n, node.currentTerm);
    LedStartsFrame(c, h, h', n, node.currentTerm);
    AppliedSomeMono(c, h, h', node', node');
    CarriedMono(c, h, h', s.net);
    assert AllCarried(c, h', s'.net);
    AssembleSmall(c, s, s', n, node.currentTerm);
  }

  // ----------------------------------------------------------------------- runs

  lemma StepSmall(c: Config, s: Cluster, step: Step)
    requires Small(c) && Inv(c, s) && SmallInv(c, s) && Enabled(c, s, step)
    ensures SmallInv(c, Apply(c, s, step))
  {
    match step
    case Timeout(n) => TimeoutSmall(c, s, n);
    case AskVote(seat) =>
    case HandleVoteRequest(req) => VoteRequestSmall(c, s, req);
    case ReceiveVote(reply) => VoteReplySmall(c, s, reply);
    case SkipPeer(seat) =>
    case FinishElection(seat) => FinishElectionSmall(c, s, seat);
    case Submit(n, data) =>
      if s.nodes[n].role == Leader {
        SubmitSmall(c, s, n, data);
      } else {
        SubmitRefused(s, n, data);
      }
    case SendAppend(n, peer) =>
      assert KnowsPeers(c, n, s.nodes[n]);
      SendAppendSmall(c, s, n, peer);
    case HandleAppend(m) => HandleAppendSmall(c, s, m);
    case ReceiveAppendReply(r) =>
      assert KnowsPeers(c, r.append.args.leader, s.nodes[r.append.args.leader]);
      AppendReplySmall(c, s, r);
  }

  lemma {:induction false} RunSmall(c: Config, r: Run, i: nat)
    requires Small(c) && IsRun(c, r) && i <= |r.steps|
    ensures SmallInv(c, r.states[i])
  {
    if i == 0 {
      InitSmall(c);
    } else {
      RunSmall(c, r, i - 1);
      RunInv(c, r, i - 1);
      RunStep(c, r, i - 1);
      StepSmall(c, r.states[i - 1], r.steps[i - 1]);
    }
  }

  /** What a node has applied, through the history of the whole run. */
  lemma AppliedInSmallRun(c: Config, r: Run, i: nat, n: NodeId) returns (p: Log)
    requires Small(c) && IsRun(c, r) && i <= |r.steps| && n in r.states[i].nodes
    ensures r.states[i].nodes[n].stateMachine == Payloads(p)
    ensures SafePrefix(c, r.states[|r.steps|].history, r.states[i].nodes[n].currentTerm, p)
  {
    var h, node := r.states[i].history, r.states[i].nodes[n];
    RunSmall(c, r, i);
    assert AppliedSome(c, h, node);
    p :| AppliedAs(c, h, node, p);
    RunExtends(c, r, i, |r.steps|);
    SafePrefixMono(c, h, r.states[|r.steps|].history, node.currentTerm, node.currentTerm, p);
  }

  /** State Machine Safety in a cluster of at most two nodes, for appends in any order. */
  lemma SmallStateMachineSafety(c: Config, r: Run, i: nat, j: nat, a: NodeId, b: NodeId)
    requires Small(c) && IsRun(c, r) && i <= |r.steps| && j <= |r.steps|
    requires a in r.states[i].nodes && b in r.states[j].nodes
    ensures Comparable(r.states[i].nodes[a].stateMachine, r.states[j].nodes[b].stateMachine)
  {
    var h := r.states[|r.steps|].history;
    var p := AppliedInSmallRun(c, r, i, a);
    var q := AppliedInSmallRun(c, r, j, b);
    RunSmall(c, r, |r.steps|);
    RunInv(c, r, |r.steps|);
    StartsFollow(h);
    SafePrefixesComparable(c, h, r.states[i].nodes[a].currentTerm, p, r.states[j].nodes[b].currentTerm, q);
    PayloadsComparable(p, q);
  }
}
