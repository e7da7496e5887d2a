/** Every step keeps the invariant of RaftInvariant. */
module RaftPreservation {
  import opened Common
  import opened RaftNode
  import opened RaftCluster
  import opened RaftInvariant

  // ------------------------------------------------------------- common frames

  /** What is new in an extended history is all that needs checking. */
  lemma HistoryFrame(c: Config, h: History, h': History)
    requires HistoryInv(c, h) && Extends(h, h')
    requires forall t {:trigger ReignInv(c, h', t)} ::
               t in h'.reigns && !(t in h.reigns && h'.reigns[t] == h.reigns[t]) ==> ReignInv(c, h', t)
    requires forall seat {:trigger CampaignInv(c, h', seat)} ::
               seat in h'.campaigns && seat !in h.campaigns ==> CampaignInv(c, h', seat)
    requires forall seat {:trigger VoteInv(c, h', seat)} ::
               seat in h'.votes && seat !in h.votes ==> VoteInv(c, h', seat)
    requires forall seat {:trigger AcceptedInv(c, h', seat)} ::
               seat in h'.accepted && !(seat in h.accepted && h'.accepted[seat] == h.accepted[seat]) ==>
                 AcceptedInv(c, h', seat)
    ensures HistoryInv(c, h')
  {
    forall t | t in h'.reigns
      ensures ReignInv(c, h', t)
    {
      if t in h.reigns && h'.reigns[t] == h.reigns[t] {
        assert ReignInv(c, h, t);
        ReignMono(c, h, h', t);
      }
    }
    forall seat | seat in h'.campaigns
      ensures CampaignInv(c, h', seat)
    {
      if seat in h.campaigns {
        assert CampaignInv(c, h, seat);
        CampaignMono(c, h, h', seat);
      }
    }
    forall seat | seat in h'.votes
      ensures VoteInv(c, h', seat)
    {
      if seat in h.votes {
        assert VoteInv(c, h, seat);
      }
    }
    forall seat | seat in h'.accepted
      ensures AcceptedInv(c, h', seat)
    {
      if seat in h.accepted && h'.accepted[seat] == h.accepted[seat] {
        assert AcceptedInv(c, h, seat);
        assert ReignGrows(h.reigns[seat.term], h'.reigns[seat.term]);
      }
    }
  }

  lemma NodesFrame(h: History, h': History, nodes: map<NodeId, Node>, n: NodeId, node: Node)
    requires NodesInv(h, nodes) && ActsAs(h, h', n) && NodeInv(h', n, node)
    ensures NodesInv(h', nodes[n := node])
  {
    var nodes' := nodes[n := node];
    forall m | m in nodes'
      ensures NodeInv(h', m, nodes'[m])
    {
      if m != n {
        assert NodeInv(h, m, nodes[m]);
        NodeFrame(h, h', n, m, nodes[m]);
      }
    }
  }

  lemma ElectionsFrame(c: Config, h: History, h': History, n: NodeId, elections: map<Seat, Election>)
    requires ElectionsInv(c, h, elections) && ActsAs(h, h', n)
    requires forall t :: t in h'.reigns && t !in h.reigns ==> Seat(n, t) !in elections
    ensures ElectionsInv(c, h', elections)
  {
    forall seat | seat in elections
      ensures ElectionInv(c, h', seat, elections[seat])
    {
      assert ElectionInv(c, h, seat, elections[seat]);
      ElectionFrame(c, h, h', n, seat, elections[seat]);
    }
  }

  lemma TypeFrame(c: Config, s: Cluster, n: NodeId, node: Node)
    requires TypeOk(c, s) && n in s.nodes
    requires node.nextIndex.Keys == s.nodes[n].nextIndex.Keys
    requires node.matchIndex.Keys == s.nodes[n].matchIndex.Keys
    ensures TypeOk(c, s.(nodes := s.nodes[n := node]))
  {
    var nodes' := s.nodes[n := node];
    forall m | m in nodes'
      ensures KnowsPeers(c, m, nodes'[m])
    {
      assert KnowsPeers(c, m, s.nodes[m]);
    }
  }

  lemma OneElection(c: Config, h: History, elections: map<Seat, Election>, seat: Seat, e: Election)
    requires ElectionsInv(c, h, elections) && ElectionInv(c, h, seat, e)
    ensures ElectionsInv(c, h, elections[seat := e])
  {
    var elections' := elections[seat := e];
    forall other | other in elections'
      ensures ElectionInv(c, h, other, elections'[other])
    {
      assert other != seat ==> ElectionInv(c, h, other, elections[other]);
    }
  }

  lemma FewerElections(c: Config, h: History, elections: map<Seat, Election>, seat: Seat)
    requires ElectionsInv(c, h, elections)
    ensures ElectionsInv(c, h, elections - {seat})
  {
    var elections' := elections - {seat};
    forall other | other in elections'
      ensures ElectionInv(c, h, other, elections'[other])
    {
      assert ElectionInv(c, h, other, elections[other]);
    }
  }

  lemma Reflexive(h: History, n: NodeId)
    ensures ActsAs(h, h, n)
  {
  }

  lemma CampaignActs(h: History, seat: Seat, log: Log)
    requires seat !in h.votes && seat !in h.campaigns
    ensures ActsAs(h, RecordCampaign(h, seat, log), seat.node)
  {
  }

  lemma VoteActs(h: History, seat: Seat, candidate: NodeId)
    requires seat in h.votes ==> h.votes[seat] == candidate
    ensures ActsAs(h, RecordVote(h, seat, candidate), seat.node)
  {
  }

  lemma WinActs(h: History, seat: Seat, voters: set<NodeId>, log: Log)
    requires seat.term !in h.reigns && seat !in h.accepted
    ensures ActsAs(h, RecordWin(h, seat, voters, log), seat.node)
  {
  }

  lemma EntryActs(h: History, seat: Seat, log: Log)
    requires seat.term in h.reigns && h.reigns[seat.term].leader == seat.node
    requires h.reigns[seat.term].log <= log
    requires Accepted(h, seat.node, seat.term) <= log
    ensures ActsAs(h, RecordEntry(h, seat, log), seat.node)
  {
  }

  lemma AppendActs(h: History, seat: Seat, accepts: bool, log: Log)
    requires accepts && seat in h.accepted && |h.accepted[seat]| < |log| ==> h.accepted[seat] <= log
    ensures ActsAs(h, RecordAppend(h, seat, accepts, log), seat.node)
  {
  }

  lemma StepDownInv(h: History, n: NodeId, node: Node, term: nat)
    requires NodeInv(h, n, node) && term > node.currentTerm
    ensures NodeInv(h, n, StepDown(node, term))
  {
  }

  lemma PeersInOrder(members: seq<NodeId>, self: NodeId)
    requires Distinct(members)
    ensures Distinct(Without(members, self))
    ensures forall p :: p in Without(members, self) <==> p in members && p != self
  {
    if members != [] {
      var rest := Without(members[1..], self);
      PeersInOrder(members[1..], self);
      assert members == [members[0]] + members[1..];
      assert members[0] !in members[1..];
      if members[0] != self {
        assert Without(members, self) == [members[0]] + rest;
      }
    }
  }

  /** A step of one node: the acting node, the threads and the messages are checked,
      everything else is framed. */
  lemma Assemble(c: Config, s: Cluster, s': Cluster, n: NodeId)
    requires TypeOk(c, s) && NodesInv(s.history, s.nodes) && n in s.nodes && n in s'.nodes
    requires s'.nodes == s.nodes[n := s'.nodes[n]]
    requires s'.nodes[n].nextIndex.Keys == s.nodes[n].nextIndex.Keys
    requires s'.nodes[n].matchIndex.Keys == s.nodes[n].matchIndex.Keys
    requires ActsAs(s.history, s'.history, n)
    requires NodeInv(s'.history, n, s'.nodes[n])
    requires HistoryInv(c, s'.history)
    requires ElectionsInv(c, s'.history, s'.elections)
    requires NetInv(c, s'.history, s'.net)
    ensures Inv(c, s')
  {
    NodesFrame(s.history, s'.history, s.nodes, n, s'.nodes[n]);
    TypeFrame(c, s, n, s'.nodes[n]);
  }

  // ------------------------------------------------------------------ Timeout

  lemma InitInv(c: Config)
    ensures Inv(c, Init(c))
  {
    var s := Init(c);
    forall n | n in s.nodes
      ensures NodeInv(s.history, n, s.nodes[n]) && KnowsPeers(c, n, s.nodes[n])
    {
    }
  }

  lemma CampaignHistory(c: Config, h: History, n: NodeId, node: Node)
    requires HistoryInv(c, h) && NodeInv(h, n, node) && n in c.Nodes()
    ensures var h' := RecordCampaign(h, Seat(n, node.currentTerm + 1), node.log);
            && ActsAs(h, h', n) && HistoryInv(c, h')
            && NodeInv(h', n, StartCampaign(node, n))
  {
    var seat := Seat(n, node.currentTerm + 1);
    var h' := RecordCampaign(h, seat, node.log);
    CampaignActs(h, seat, node.log);
    BackedMono(h, h', node.log);
    NoReignAhead(c, h, n, node);
    HistoryFrame(c, h, h');
  }

  /** A node has not led a term it has not reached. */
  lemma NoReignAhead(c: Config, h: History, n: NodeId, node: Node)
    requires HistoryInv(c, h) && NodeInv(h, n, node)
    ensures node.currentTerm + 1 in h.reigns ==> h.reigns[node.currentTerm + 1].leader != n
  {
    var t := node.currentTerm + 1;
    if t in h.reigns {
      assert ReignInv(c, h, t);
    }
  }

  lemma NewElection(c: Config, h: History, seat: Seat)
    requires Distinct(c.members) && seat in h.campaigns
    requires seat.term in h.reigns ==> h.reigns[seat.term].leader != seat.node
    ensures var log := h.campaigns[seat];
            ElectionInv(c, h, seat, Election(LastIndex(log), LastTerm(log), Without(c.members, seat.node), 1, {}))
  {
    PeersInOrder(c.members, seat.node);
  }

  lemma CampaignElections(c: Config, h: History, n: NodeId, node: Node, elections: map<Seat, Election>)
    requires Distinct(c.members) && HistoryInv(c, h) && NodeInv(h, n, node) && ElectionsInv(c, h, elections)
    requires ActsAs(h, RecordCampaign(h, Seat(n, node.currentTerm + 1), node.log), n)
    ensures var seat, log := Seat(n, node.currentTerm + 1), node.log;
            ElectionsInv(c, RecordCampaign(h, seat, log),
              elections[seat := Election(LastIndex(log), LastTerm(log), Without(c.members, n), 1, {})])
  {
    var seat := Seat(n, node.currentTerm + 1);
    var h' := RecordCampaign(h, seat, node.log);
    ElectionsFrame(c, h, h', n, elections);
    NoReignAhead(c, h, n, node);
    NewElection(c, h', seat);
    OneElection(c, h', elections, seat,
                Election(LastIndex(node.log), LastTerm(node.log), Without(c.members, n), 1, {}));
  }

  lemma TimeoutInv(c: Config, s: Cluster, n: NodeId)
    requires c.Valid() && Inv(c, s) && n in s.nodes
    ensures Inv(c, AfterTimeout(c, s, n))
  {
    var s', node := AfterTimeout(c, s, n), s.nodes[n];
    var h' := RecordCampaign(s.history, Seat(n, node.currentTerm + 1), node.log);
    assert NodeInv(s.history, n, node);
    CampaignHistory(c, s.history, n, node);
    CampaignElections(c, s.history, n, node, s.elections);
    NetMono(c, s.history, h', s.net);
    NodesFrame(s.history, h', s.nodes, n, StartCampaign(node, n));
    TypeFrame(c, s, n, StartCampaign(node, n));
  }

  // -------------------------------------------------------------------- votes

  lemma AskVoteInv(c: Config, s: Cluster, seat: Seat)
    requires Inv(c, s) && seat in s.elections && s.elections[seat].remaining != []
    ensures Inv(c, AfterAskVote(s, seat))
  {
    assert ElectionInv(c, s.history, seat, s.elections[seat]);
  }

  lemma GrantHistory(c: Config, h: History, n: NodeId, node: Node, req: VoteRequest)
    requires HistoryInv(c, h) && NodeInv(h, n, node) && n in c.Nodes() && VoteRequestInv(h, req)
    requires GrantsVote(node, req.term, req.candidate, req.lastIndex, req.lastTerm)
    ensures var h' := RecordVote(h, Seat(n, req.term), req.candidate);
            && ActsAs(h, h', n) && HistoryInv(c, h')
            && NodeInv(h', n, HandleRequestVote(node, req.term, req.candidate, req.lastIndex, req.lastTerm))
  {
    var h' := RecordVote(h, Seat(n, req.term), req.candidate);
    VoteActs(h, Seat(n, req.term), req.candidate);
    HistoryFrame(c, h, h');
    GrantNode(h, n, node, req);
  }

  lemma GrantNode(h: History, n: NodeId, node: Node, req: VoteRequest)
    requires NodeInv(h, n, node)
    requires GrantsVote(node, req.term, req.candidate, req.lastIndex, req.lastTerm)
    ensures NodeInv(RecordVote(h, Seat(n, req.term), req.candidate), n,
                    HandleRequestVote(node, req.term, req.candidate, req.lastIndex, req.lastTerm))
  {
    var h' := RecordVote(h, Seat(n, req.term), req.candidate);
    var node' := HandleRequestVote(node, req.term, req.candidate, req.lastIndex, req.lastTerm);
    VoteActs(h, Seat(n, req.term), req.candidate);
    BackedMono(h, h', node.log);
    if node'.role == Leader {
      LeaderMono(h, h', n, node, node');
    }
  }

  /** A leader whose log, term and peer indexes stay put is still consistent. */
  lemma LeaderMono(h: History, h': History, n: NodeId, node: Node, node': Node)
    requires LeaderInv(h, n, node)
    requires h'.reigns == h.reigns && h'.accepted == h.accepted
    requires node'.log == node.log && node'.currentTerm == node.currentTerm
    requires node'.nextIndex == node.nextIndex && node'.matchIndex == node.matchIndex
    ensures LeaderInv(h', n, node')
  {
    forall p | p in node'.nextIndex
      ensures PeerIndexInv(h', node', p)
    {
      assert PeerIndexInv(h, node, p);
    }
  }

  lemma VoteRequestStepInv(c: Config, s: Cluster, req: VoteRequest)
    requires Inv(c, s) && req in s.net.voteRequests && req.to in s.nodes
    ensures Inv(c, AfterVoteRequest(s, req))
  {
    var s' := AfterVoteRequest(s, req);
    var h, h' := s.history, s'.history;
    var n, node := req.to, s.nodes[req.to];
    assert NodeInv(h, n, node);
    assert VoteRequestInv(h, req);
    if GrantsVote(node, req.term, req.candidate, req.lastIndex, req.lastTerm) {
      GrantHistory(c, h, n, node, req);
    } else {
      Reflexive(h, n);
      if req.term > node.currentTerm {
        StepDownInv(h, n, node, req.term);
      }
    }
    ElectionsFrame(c, h, h', n, s.elections);
    NetMono(c, h, h', s.net);
    assert NetInv(c, h', s'.net);
    Assemble(c, s, s', n);
  }

  lemma CountVoteInv(c: Config, h: History, seat: Seat, e: Election, counts: bool)
    requires ElectionInv(c, h, seat, e) && e.remaining != []
    requires counts ==> Voted(h, e.remaining[0], seat.term, seat.node)
    ensures ElectionInv(c, h, seat, CountVote(e, if counts then e.remaining[0] else seat.node, counts))
  {
    var p := e.remaining[0];
    assert p in e.remaining;
    assert forall q :: q in e.remaining[1..] ==> q in e.remaining && q != p;
  }

  lemma VoteReplyStepInv(c: Config, s: Cluster, reply: VoteReply)
    requires Inv(c, s) && Enabled(c, s, ReceiveVote(reply))
    ensures Inv(c, AfterVoteReply(s, reply))
  {
    var s' := AfterVoteReply(s, reply);
    var h := s.history;
    var seat := Seat(reply.request.candidate, reply.request.term);
    var node, e := s.nodes[seat.node], s.elections[seat];
    assert NodeInv(h, seat.node, node);
    Reflexive(h, seat.node);
    if reply.term > node.currentTerm {
      StepDownInv(h, seat.node, node, reply.term);
      FewerElections(c, h, s.elections, seat);
    } else {
      assert VoteReplyInv(h, reply);
      assert ElectionInv(c, h, seat, e);
      CountVoteInv(c, h, seat, e, CountsVote(node, seat.term, reply.granted));
      OneElection(c, h, s.elections, seat, s'.elections[seat]);
    }
    Assemble(c, s, s', seat.node);
  }

  lemma SkipInv(c: Config, s: Cluster, seat: Seat)
    requires Inv(c, s) && seat in s.elections && s.elections[seat].remaining != []
    ensures Inv(c, AfterSkip(s, seat))
  {
    assert ElectionInv(c, s.history, seat, s.elections[seat]);
    CountVoteInv(c, s.history, seat, s.elections[seat], false);
    OneElection(c, s.history, s.elections, seat, AfterSkip(s, seat).elections[seat]);
  }

  // ------------------------------------------------------------- winning a term

  /** Nobody has led the term of an election that is being won. */
  lemma FreshTerm(c: Config, h: History, seat: Seat, e: Election)
    requires c.Valid() && HistoryInv(c, h) && ElectionInv(c, h, seat, e)
    requires e.votes > |c.members| / 2
    ensures seat.term !in h.reigns
    ensures e.granted + {seat.node} <= c.Nodes() && c.Majority(e.granted + {seat.node})
    ensures forall v :: v in e.granted + {seat.node} ==> Voted(h, v, seat.term, seat.node)
  {
    var voters := e.granted + {seat.node};
    assert CampaignInv(c, h, seat);
    assert seat.node !in e.granted;
    assert |voters| == e.votes;
    if seat.term in h.reigns {
      assert ReignInv(c, h, seat.term);
      var v := MajoritiesMeet(c, voters, h.reigns[seat.term].voters);
      assert false;
    }
  }

  lemma WinHistory(c: Config, h: History, seat: Seat, e: Election, node: Node)
    requires c.Valid() && HistoryInv(c, h) && NodeInv(h, seat.node, node) && ElectionInv(c, h, seat, e)
    requires WinsElection(node, seat.term, e.votes, |c.members|)
    requires node.matchIndex.Keys == node.nextIndex.Keys
    ensures var h' := RecordWin(h, seat, e.granted + {seat.node}, node.log);
            && ActsAs(h, h', seat.node) && HistoryInv(c, h')
            && NodeInv(h', seat.node, ConcludeElection(node, seat.node, seat.term, e.votes, |c.members|))
  {
    var h' := RecordWin(h, seat, e.granted + {seat.node}, node.log);
    FreshTerm(c, h, seat, e);
    assert seat !in h.accepted by {
      assert seat in h.accepted ==> AcceptedInv(c, h, seat);
    }
    assert CampaignInv(c, h, seat);
    WinActs(h, seat, e.granted + {seat.node}, node.log);
    BackedSorted(c, h, node.log);
    BackedMono(h, h', node.log);
    assert ReignInv(c, h', seat.term);
    HistoryFrame(c, h, h');
    WinNode(h, h', seat, e, node, |c.members|);
  }

  lemma WinNode(h: History, h': History, seat: Seat, e: Election, node: Node, size: nat)
    requires NodeInv(h, seat.node, node) && node.matchIndex.Keys == node.nextIndex.Keys
    requires WinsElection(node, seat.term, e.votes, size)
    requires h' == RecordWin(h, seat, e.granted + {seat.node}, node.log)
    requires Backed(h', node.log)
    ensures NodeInv(h', seat.node, ConcludeElection(node, seat.node, seat.term, e.votes, size))
  {
  }

  lemma FinishElectionInv(c: Config, s: Cluster, seat: Seat)
    requires c.Valid() && Inv(c, s) && seat in s.elections && seat.node in s.nodes
    ensures Inv(c, AfterElection(c, s, seat))
  {
    var s' := AfterElection(c, s, seat);
    var h, h' := s.history, s'.history;
    var n, node, e := seat.node, s.nodes[seat.node], s.elections[seat];
    assert NodeInv(h, n, node) && KnowsPeers(c, n, node);
    assert ElectionInv(c, h, seat, e);
    FewerElections(c, h, s.elections, seat);
    if WinsElection(node, seat.term, e.votes, |c.members|) {
      WinHistory(c, h, seat, e, node);
    } else {
      Reflexive(h, n);
    }
    ElectionsFrame(c, h, h', n, s'.elections);
    NetMono(c, h, h', s.net);
    Assemble(c, s, s', n);
  }

  // -------------------------------------------------------------- leader steps

  lemma EntryHistory(c: Config, h: History, n: NodeId, node: Node, data: Data)
    requires HistoryInv(c, h) && NodeInv(h, n, node) && node.role == Leader
    ensures var node' := RaftNode.Propose(node, data);
            var h' := RecordEntry(h, Seat(n, node.currentTerm), node'.log);
            ActsAs(h, h', n) && HistoryInv(c, h') && NodeInv(h', n, node')
  {
    var t := node.currentTerm;
    var node' := RaftNode.Propose(node, data);
    var h' := RecordEntry(h, Seat(n, t), node'.log);
    assert ReignInv(c, h, t);
    EntryActs(h, Seat(n, t), node'.log);
    BackedMono(h, h', node.log);
    BackedSnoc(h', node.log, Entry(t, data));
    assert ReignInv(c, h', t);
    assert CampaignInv(c, h, Seat(n, t));
    HistoryFrame(c, h, h');
    forall p | p in node.nextIndex
      ensures PeerIndexInv(h', node', p)
    {
      assert PeerIndexInv(h, node, p);
      AcceptedMono(h, h', p, t);
    }
  }

  /** Nobody but a leader takes an entry. */
  lemma SubmitRefused(s: Cluster, n: NodeId, data: Data)
    requires n in s.nodes && s.nodes[n].role != Leader
    ensures AfterSubmit(s, n, data) == s
  {
  }

  lemma SubmitInv(c: Config, s: Cluster, n: NodeId, data: Data)
    requires Inv(c, s) && n in s.nodes && s.nodes[n].role == Leader
    ensures Inv(c, AfterSubmit(s, n, data))
  {
    var s' := AfterSubmit(s, n, data);
    var h, h' := s.history, s'.history;
    assert NodeInv(h, n, s.nodes[n]);
    EntryHistory(c, h, n, s.nodes[n], data);
    ElectionsFrame(c, h, h', n, s.elections);
    NetMono(c, h, h', s.net);
    Assemble(c, s, s', n);
  }

  lemma BuiltAppendInv(c: Config, h: History, n: NodeId, node: Node, peer: NodeId, stamp: nat)
    requires HistoryInv(c, h) && NodeInv(h, n, node) && node.role == Leader && KnowsPeers(c, n, node)
    requires peer in Peers(c, n)
    ensures AppendInv(c, h, Append(peer, BuildAppend(node, n, peer), node.log, stamp))
  {
    assert PeerIndexInv(h, node, peer);
    assert ReignInv(c, h, node.currentTerm);
    BuildCarriesSuffix(n, node, peer);
  }

  lemma BuildCarriesSuffix(n: NodeId, node: Node, peer: NodeId)
    requires peer in node.nextIndex && node.nextIndex[peer] <= |node.log|
    ensures var a := BuildAppend(node, n, peer); CarriesSuffix(node.log, a.prevIndex, a.entries)
  {
  }

  lemma SendAppendInv(c: Config, s: Cluster, n: NodeId, peer: NodeId)
    requires Inv(c, s) && Enabled(c, s, SendAppend(n, peer)) && peer in s.nodes[n].nextIndex
    ensures Inv(c, AfterSendAppend(s, n, peer))
  {
    var node := s.nodes[n];
    assert NodeInv(s.history, n, node) && KnowsPeers(c, n, node);
    BuiltAppendInv(c, s.history, n, node, peer, s.order.builds);
    AddAppend(c, s.history, s.net, Append(peer, BuildAppend(node, n, peer), node.log, s.order.builds));
  }

  lemma AddAppend(c: Config, h: History, net: Network, m: Append)
    requires NetInv(c, h, net) && AppendInv(c, h, m)
    ensures NetInv(c, h, net.(appends := net.appends + {m}))
  {
    var net' := net.(appends := net.appends + {m});
    forall a | a in net'.appends
      ensures AppendInv(c, h, a)
    {
    }
    NetSame(c, h, net, net');
  }

  lemma NetSame(c: Config, h: History, net: Network, net': Network)
    requires NetInv(c, h, net)
    requires net'.voteRequests == net.voteRequests && net'.voteReplies == net.voteReplies
    requires forall m {:trigger AppendInv(c, h, m)} :: m in net'.appends ==> AppendInv(c, h, m)
    requires forall m {:trigger AppendReplyInv(c, h, m)} :: m in net'.appendReplies ==> AppendReplyInv(c, h, m)
    ensures NetInv(c, h, net')
  {
  }

  lemma AddAppendReply(c: Config, h: History, net: Network, r: AppendReply)
    requires NetInv(c, h, net) && AppendReplyInv(c, h, r)
    ensures NetInv(c, h, net.(appendReplies := net.appendReplies + {r}))
  {
    NetSame(c, h, net, net.(appendReplies := net.appendReplies + {r}));
  }

  // ---------------------------------------------------------- handling appends

  /** The sender's log at build time, as seen through the history. */
  lemma BuiltLog(c: Config, h: History, m: Append)
    requires HistoryInv(c, h) && AppendInv(c, h, m)
    ensures Backed(h, m.built) && TermsBelow(m.built, m.args.term + 1)
    ensures EndIndex(m.args) == |m.built| - 1
  {
    var r := h.reigns[m.args.term];
    assert ReignInv(c, h, m.args.term);
    assert CampaignInv(c, h, Seat(r.leader, m.args.term));
    assert m.built == r.log[..|m.built|];
    BackedPrefix(h, r.log, |m.built|);
    forall i | 0 <= i < |m.built|
      ensures m.built[i].term < m.args.term + 1
    {
      assert m.built[i] == r.log[i];
      if i < |r.start| {
        assert r.log[i] == r.start[i];
      }
    }
  }

  /** What an append does to a log: with entries, an accepted append makes it the
      sender's log at build time; without, that log was already a prefix. */
  lemma AppendEffect(c: Config, h: History, m: Append, log: Log)
    requires HistoryInv(c, h) && AppendInv(c, h, m) && Backed(h, log)
    ensures var a := m.args;
            var log' := LogAfterAppend(log, a.prevIndex, a.prevTerm, a.entries);
            && Backed(h, log')
            && (AcceptsAppend(log, a.prevIndex, a.prevTerm) ==>
                  if a.entries != [] then log' == m.built else log' == log && m.built <= log)
            && (!AcceptsAppend(log, a.prevIndex, a.prevTerm) ==> log' <= log)
  {
    var a := m.args;
    BuiltLog(c, h, m);
    if AcceptsAppend(log, a.prevIndex, a.prevTerm) {
      if a.prevIndex >= 0 {
        BackedMatch(h, log, m.built, a.prevIndex);
      }
      SuffixCompletes(log, m.built, a.prevIndex, a.entries);
    } else if a.prevIndex < |log| {
      BackedPrefix(h, log, a.prevIndex);
    }
  }

  /** A log that agrees with the sender's before the entries becomes it with them. */
  lemma SuffixCompletes(log: Log, built: Log, prevIndex: Index, entries: Log)
    requires CarriesSuffix(built, prevIndex, entries) && prevIndex < |log| && prevIndex < |built|
    requires log[..prevIndex + 1] == built[..prevIndex + 1]
    ensures log[..prevIndex + 1] + entries == built
    ensures entries == [] ==> built <= log
  {
    assert built[prevIndex + 1..] == entries;
    assert built == built[..prevIndex + 1] + built[prevIndex + 1..];
  }

  /** The log of a node that has handled an append. */
  function NewLog(n: Node, a: AppendArgs): Log {
    if a.term >= n.currentTerm then LogAfterAppend(n.log, a.prevIndex, a.prevTerm, a.entries) else n.log
  }

  function NewTerm(n: Node, a: AppendArgs): nat {
    if a.term > n.currentTerm then a.term else n.currentTerm
  }

  /** Fields an append leaves alone or sets directly. */
  lemma HandleAppendFields(n: Node, a: AppendArgs)
    ensures var n' := HandleAppendEntries(n, a);
            && n'.nextIndex == n.nextIndex && n'.matchIndex == n.matchIndex
            && n'.currentTerm == NewTerm(n, a) && n'.log == NewLog(n, a)
            && n'.votedFor == (if a.term > n.currentTerm then None else n.votedFor)
            && (a.term >= n.currentTerm ==> n'.role == Follower)
            && (a.term < n.currentTerm ==> n' == n)
  {
  }

  lemma AppendLog(c: Config, h: History, m: Append, node: Node)
    requires HistoryInv(c, h) && AppendInv(c, h, m)
    requires Backed(h, node.log) && TermsBelow(node.log, node.currentTerm + 1)
    ensures Backed(h, NewLog(node, m.args)) && TermsBelow(NewLog(node, m.args), NewTerm(node, m.args) + 1)
  {
    AppendEffect(c, h, m, node.log);
    BuiltLog(c, h, m);
  }

  lemma SeatsLater(h: History, n: NodeId, term: nat, later: nat)
    requires SeatsWithin(h, n, term) && term <= later
    ensures SeatsWithin(h, n, later)
  {
  }

  /** A node that handles an append is consistent if its new log is. */
  lemma FollowsInv(h: History, n: NodeId, node: Node, a: AppendArgs, node': Node)
    requires NodeInv(h, n, node) && node' == HandleAppendEntries(node, a)
    requires Backed(h, NewLog(node, a)) && TermsBelow(NewLog(node, a), NewTerm(node, a) + 1)
    ensures NodeInv(h, n, node')
  {
    HandleAppendFields(node, a);
    if a.term >= node.currentTerm {
      SeatsLater(h, n, node.currentTerm, a.term);
    }
  }

  predicate AddsEntries(node: Node, a: AppendArgs) {
    AppendSucceeds(node, a) && a.entries != []
  }

  function AppendRecord(h: History, n: NodeId, node: Node, m: Append): History {
    RecordAppend(h, Seat(n, m.args.term), AddsEntries(node, m.args),
                 LogAfterAppend(node.log, m.args.prevIndex, m.args.prevTerm, m.args.entries))
  }

  lemma RecordHistory(c: Config, h: History, n: NodeId, m: Append, adds: bool, log: Log)
    requires HistoryInv(c, h) && AppendInv(c, h, m) && n in c.Nodes() && (adds ==> log == m.built)
    ensures var h' := RecordAppend(h, Seat(n, m.args.term), adds, log);
            && ActsAs(h, h', n) && HistoryInv(c, h')
            && (adds ==> |m.built| <= |Accepted(h', n, m.args.term)|)
  {
    var seat := Seat(n, m.args.term);
    assert seat in h.accepted ==> AcceptedInv(c, h, seat);
    AppendActs(h, seat, adds, log);
    HistoryFrame(c, h, RecordAppend(h, seat, adds, log));
  }

  lemma RecordNode(h: History, n: NodeId, node: Node, t: nat, adds: bool, log: Log)
    requires NodeInv(h, n, node) && (adds ==> node.role == Follower && node.currentTerm == t)
    requires Extends(h, RecordAppend(h, Seat(n, t), adds, log))
    ensures NodeInv(RecordAppend(h, Seat(n, t), adds, log), n, node)
  {
    var h' := RecordAppend(h, Seat(n, t), adds, log);
    BackedMono(h, h', node.log);
    if node.role == Leader {
      LeaderMono(h, h', n, node, node);
    }
  }

  lemma AppendHistory(c: Config, h: History, n: NodeId, node: Node, m: Append)
    requires HistoryInv(c, h) && AppendInv(c, h, m) && NodeInv(h, n, node) && n in c.Nodes()
    ensures var h' := AppendRecord(h, n, node, m);
            && ActsAs(h, h', n) && HistoryInv(c, h')
            && (AddsEntries(node, m.args) ==> |m.built| <= |Accepted(h', n, m.args.term)|)
  {
    AppendEffect(c, h, m, node.log);
    RecordHistory(c, h, n, m, AddsEntries(node, m.args),
                  LogAfterAppend(node.log, m.args.prevIndex, m.args.prevTerm, m.args.entries));
  }

  lemma HandleAppendInv(c: Config, s: Cluster, m: Append)
    requires Inv(c, s) && m in s.net.appends && m.to in s.nodes
    ensures Inv(c, AfterAppend(s, m))
  {
    var s' := AfterAppend(s, m);
    var h, h' := s.history, s'.history;
    var n, node, node' := m.to, s.nodes[m.to], s'.nodes[m.to];
    assert NodeInv(h, n, node);
    assert AppendInv(c, h, m);
    AppendHistory(c, h, n, node, m);
    AppendLog(c, h, m, node);
    FollowsInv(h, n, node, m.args, node');
    HandleAppendFields(node, m.args);
    RecordNode(h, n, node', m.args.term, AddsEntries(node, m.args),
               LogAfterAppend(node.log, m.args.prevIndex, m.args.prevTerm, m.args.entries));
    ElectionsFrame(c, h, h', n, s.elections);
    NetMono(c, h, h', s.net);
    AppendMono(c, h, h', m);
    AddAppendReply(c, h', s.net, AppendReply(m, node'.currentTerm, AppendSucceeds(node, m.args)));
    Assemble(c, s, s', n);
  }

  // ------------------------------------------------------------ append replies

  /** Committing and applying leave everything else alone. */
  lemma CommitFields(n: Node, clusterSize: nat)
    ensures var n' := UpdateCommitIndex(n, clusterSize);
            n' == n.(commitIndex := n'.commitIndex, lastApplied := n'.lastApplied, stateMachine := n'.stateMachine)
  {
  }

  lemma AckInv(c: Config, h: History, n: NodeId, node: Node, r: AppendReply)
    requires HistoryInv(c, h) && LeaderInv(h, n, node) && AppendReplyInv(c, h, r)
    requires node.currentTerm == r.append.args.term
    requires r.append.to in node.nextIndex
    requires r.success && r.append.args.entries != []
    ensures LeaderInv(h, n, RecordAck(node, r.append.to, EndIndex(r.append.args)))
  {
    BuiltLog(c, h, r.append);
    var node' := RecordAck(node, r.append.to, EndIndex(r.append.args));
    forall p | p in node'.nextIndex
      ensures PeerIndexInv(h, node', p)
    {
      assert p != r.append.to ==> PeerIndexInv(h, node, p);
    }
  }

  /** Whether a reply to an append makes the leader search for a new commit index. */
  predicate CountsAck(node: Node, r: AppendReply) {
    && node.role == Leader && node.currentTerm == r.append.args.term && r.term <= node.currentTerm
    && r.success && r.append.args.entries != []
  }

  /** The leader, once it has recorded what the reply acknowledges. */
  function Credited(node: Node, r: AppendReply): Node {
    RecordAck(node, r.append.to, EndIndex(r.append.args))
  }

  ghost predicate CreditSound(h: History, n: NodeId, node: Node, r: AppendReply) {
    CountsAck(node, r) ==> LeaderInv(h, n, Credited(node, r))
  }

  lemma CreditIsSound(c: Config, h: History, n: NodeId, node: Node, r: AppendReply)
    requires HistoryInv(c, h) && NodeInv(h, n, node) && AppendReplyInv(c, h, r) && r.append.to in node.nextIndex
    ensures CreditSound(h, n, node, r)
  {
    if CountsAck(node, r) {
      AckInv(c, h, n, node, r);
    }
  }

  lemma BackUpInv(h: History, n: NodeId, node: Node, peer: NodeId)
    requires LeaderInv(h, n, node) && peer in node.nextIndex
    ensures LeaderInv(h, n, node.(nextIndex := node.nextIndex[peer := Max(0, node.nextIndex[peer] as int - 1)]))
  {
    var node' := node.(nextIndex := node.nextIndex[peer := Max(0, node.nextIndex[peer] as int - 1)]);
    forall p | p in node'.nextIndex
      ensures PeerIndexInv(h, node', p)
    {
      assert PeerIndexInv(h, node, p);
    }
  }

  lemma AppendReplyNodeInv(h: History, n: NodeId, node: Node, r: AppendReply, size: nat)
    requires NodeInv(h, n, node) && CreditSound(h, n, node, r)
    requires r.append.to in node.nextIndex && node.matchIndex.Keys == node.nextIndex.Keys
    ensures var node' := HandleAppendReply(node, r.append.to, r.append.args, r.term, r.success, size);
            && NodeInv(h, n, node')
            && node'.nextIndex.Keys == node.nextIndex.Keys && node'.matchIndex.Keys == node.matchIndex.Keys
  {
    var sent, peer := r.append.args, r.append.to;
    if node.role == Leader && node.currentTerm == sent.term {
      if r.term > node.currentTerm {
        StepDownInv(h, n, node, r.term);
      } else if !r.success {
        BackUpInv(h, n, node, peer);
      } else if sent.entries != [] {
        var acked := Credited(node, r);
        CommitFields(acked, size);
        var done := UpdateCommitIndex(acked, size);
        forall p | p in done.nextIndex
          ensures PeerIndexInv(h, done, p)
        {
          assert PeerIndexInv(h, acked, p);
        }
      }
    }
  }

  lemma AppendReplyStepInv(c: Config, s: Cluster, r: AppendReply)
    requires Inv(c, s) && Enabled(c, s, ReceiveAppendReply(r))
    requires r.append.to in s.nodes[r.append.args.leader].nextIndex
    ensures Inv(c, AfterAppendReply(c, s, r))
  {
    var n := r.append.args.leader;
    var s' := AfterAppendReply(c, s, r);
    assert NodeInv(s.history, n, s.nodes[n]) && KnowsPeers(c, n, s.nodes[n]);
    assert AppendReplyInv(c, s.history, r);
    CreditIsSound(c, s.history, n, s.nodes[n], r);
    AppendReplyNodeInv(s.history, n, s.nodes[n], r, |c.members|);
    Reflexive(s.history, n);
    Assemble(c, s, s', n);
  }

  /** The invariant is inductive. */
  lemma StepInv(c: Config, s: Cluster, step: Step)
    requires c.Valid() && Inv(c, s) && Enabled(c, s, step)
    ensures Inv(c, Apply(c, s, step))
  {
    match step
    case Timeout(n) => TimeoutInv(c, s, n);
    case AskVote(seat) => AskVoteInv(c, s, seat);
    case HandleVoteRequest(req) => VoteRequestStepInv(c, s, req);
    case ReceiveVote(reply) => VoteReplyStepInv(c, s, reply);
    case SkipPeer(seat) => SkipInv(c, s, seat);
    case FinishElection(seat) => FinishElectionInv(c, s, seat);
    case Submit(n, data) =>
      if s.nodes[n].role == Leader {
        SubmitInv(c, s, n, data);
      } else {
        SubmitRefused(s, n, data);
      }
    case SendAppend(n, peer) =>
      assert KnowsPeers(c, n, s.nodes[n]);
      SendAppendInv(c, s, n, peer);
    case HandleAppend(m) => HandleAppendInv(c, s, m);
    case ReceiveAppendReply(r) =>
      assert KnowsPeers(c, r.append.args.leader, s.nodes[r.append.args.leader]);
      AppendReplyStepInv(c, s, r);
  }
}
