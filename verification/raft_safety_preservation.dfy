/** Every step keeps the invariant of RaftSafety, as long as no handled append has
    been overtaken. */
module RaftSafetyPreservation {
  import opened Common
  import opened RaftNode
  import opened RaftCluster
  import opened RaftInvariant
  import opened RaftPreservation
  import opened RaftSafety

  // -------------------------------------------------------------------- frames

  /** The history moves by acts of node n, whose term is at most `term`. */
  ghost predicate Moves(c: Config, h: History, h': History, n: NodeId, term: nat) {
    HistoryInv(c, h) && Extends(h, h') && AcksOnlyAt(h, h', n, term) && SeatsWithin(h, n, term)
  }

  /** What is acknowledged was in the reign's log already. */
  lemma AckedOwn(c: Config, h: History, h': History, v: NodeId, t: nat, k: nat)
    requires HistoryInv(c, h) && Extends(h, h') && OwnEntry(h', t, k) && Acked(h, v, t, k)
    ensures OwnEntry(h, t, k)
  {
    assert Seat(v, t) in h.accepted;
    assert AcceptedInv(c, h, Seat(v, t));
    assert ReignGrows(h.reigns[t], h'.reigns[t]);
  }

  /** A node that acknowledges nothing new and loses nothing keeps what it had. */
  lemma KeepFrame(c: Config, h: History, h': History, n: NodeId, term: nat, m: NodeId, log: Log, log': Log)
    requires Moves(c, h, h', n, term) && KeepInv(h, m, log) && log <= log'
    requires forall t: nat, k: nat {:trigger Acked(h', m, t, k)} ::
               OwnEntry(h', t, k) && Acked(h', m, t, k) ==> Acked(h, m, t, k) || Holds(h', t, k, log')
    ensures KeepInv(h', m, log')
  {
    forall t: nat, k: nat | OwnEntry(h', t, k) && Acked(h', m, t, k)
      ensures Holds(h', t, k, log') || Blocked(h', t, k)
    {
      if Acked(h, m, t, k) {
        AckedOwn(c, h, h', m, t, k);
        if Blocked(h, t, k) {
          BlockedMono(c, h, h', n, term, t, k);
        } else {
          HoldsMono(h, h', t, k, log, log');
        }
      }
    }
  }

  lemma KeepOthers(c: Config, h: History, h': History, n: NodeId, term: nat, nodes: map<NodeId, Node>, node: Node)
    requires Moves(c, h, h', n, term) && KeepsAll(h, nodes) && KeepInv(h', n, node.log)
    ensures KeepsAll(h', nodes[n := node])
  {
    var nodes' := nodes[n := node];
    forall m | m in nodes'
      ensures KeepInv(h', m, nodes'[m].log)
    {
      if m != n {
        assert KeepInv(h, m, nodes[m].log);
        forall t: nat, k: nat | Acked(h', m, t, k)
          ensures Acked(h, m, t, k)
        {
          assert Accepted(h', m, t) == Accepted(h, m, t);
        }
        KeepFrame(c, h, h', n, term, m, nodes[m].log, nodes[m].log);
      }
    }
  }

  lemma VoteFrame(c: Config, h: History, h': History, n: NodeId, term: nat, seat: Seat)
    requires Moves(c, h, h', n, term) && seat in h.votes
    requires Seat(h.votes[seat], seat.term) in h.campaigns && VoteSafe(h, seat)
    ensures Seat(h'.votes[seat], seat.term) in h'.campaigns && VoteSafe(h', seat)
  {
    var log := h.campaigns[Seat(h.votes[seat], seat.term)];
    forall t: nat, k: nat | OwnEntry(h', t, k) && t < seat.term && Acked(h', seat.node, t, k)
      ensures Holds(h', t, k, log) || Blocked(h', t, k)
    {
      assert Accepted(h', seat.node, t) == Accepted(h, seat.node, t) by {
        assert seat.node == n ==> Seat(n, seat.term) in h.votes;
      }
      assert Acked(h, seat.node, t, k);
      AckedOwn(c, h, h', seat.node, t, k);
      if Blocked(h, t, k) {
        BlockedMono(c, h, h', n, term, t, k);
      } else {
        HoldsMono(h, h', t, k, log, log);
      }
    }
  }

  lemma VotesFrame(c: Config, h: History, h': History, n: NodeId, term: nat)
    requires Moves(c, h, h', n, term) && VotesSafe(h)
    requires forall seat {:trigger Seat(h'.votes[seat], seat.term)} :: seat in h'.votes && seat !in h.votes ==>
               Seat(h'.votes[seat], seat.term) in h'.campaigns && VoteSafe(h', seat)
    ensures VotesSafe(h')
  {
    forall seat | seat in h'.votes
      ensures Seat(h'.votes[seat], seat.term) in h'.campaigns && VoteSafe(h', seat)
    {
      if seat in h.votes {
        assert Seat(h.votes[seat], seat.term) in h.campaigns;
        VoteFrame(c, h, h', n, term, seat);
      }
    }
  }

  /** A leader's start log stays good: an entry that is new in an older reign can no
      longer be acknowledged by the later leader's voters. */
  lemma StartFrame(c: Config, h: History, h': History, n: NodeId, term: nat, u: nat)
    requires Moves(c, h, h', n, term) && u in h.reigns && StartInv(h, u)
    ensures u in h'.reigns && StartInv(h', u)
  {
    assert ReignGrows(h.reigns[u], h'.reigns[u]);
    assert ReignInv(c, h, u);
    forall t: nat, k: nat | OwnEntry(h', t, k) && t < u
      ensures Holds(h', t, k, h'.reigns[u].start) || Blocked(h', t, k)
    {
      if OwnEntry(h, t, k) {
        if Blocked(h, t, k) {
          BlockedMono(c, h, h', n, term, t, k);
        } else {
          HoldsMono(h, h', t, k, h.reigns[u].start, h.reigns[u].start);
        }
      } else {
        forall v | v in h'.reigns[u].voters
          ensures !Acked(h', v, t, k)
        {
          assert Voted(h, v, u, h.reigns[u].leader);
          assert Accepted(h', v, t) == Accepted(h, v, t);
          if Acked(h, v, t, k) {
            AckedOwn(c, h, h', v, t, k);
          }
        }
        assert BlockedBy(h', t, k, u);
      }
    }
  }

  lemma StartsFrame(c: Config, h: History, h': History, n: NodeId, term: nat)
    requires Moves(c, h, h', n, term) && StartsInv(h)
    requires forall u {:trigger StartInv(h', u)} :: u in h'.reigns && u !in h.reigns ==> StartInv(h', u)
    ensures StartsInv(h')
  {
    forall u | u in h'.reigns
      ensures StartInv(h', u)
    {
      if u in h.reigns {
        assert StartInv(h, u);
        StartFrame(c, h, h', n, term, u);
      }
    }
  }

  lemma AppliedMono(c: Config, h: History, h': History, node: Node, node': Node)
    requires Extends(h, h') && AppliedInv(c, h, node) && node.currentTerm <= node'.currentTerm
    requires node'.commitIndex == node.commitIndex && node'.lastApplied == node.lastApplied
    requires node'.stateMachine == node.stateMachine && node.log <= node'.log
    ensures AppliedInv(c, h', node')
  {
    assert node'.log[..node.commitIndex + 1] == node.log[..node.commitIndex + 1];
    SafePrefixMono(c, h, h', node.currentTerm, node'.currentTerm, node.log[..node.commitIndex + 1]);
  }

  lemma AppliedOthers(c: Config, h: History, h': History, nodes: map<NodeId, Node>, n: NodeId, node: Node)
    requires Extends(h, h') && AllApplied(c, h, nodes) && AppliedInv(c, h', node)
    ensures AllApplied(c, h', nodes[n := node])
  {
    var nodes' := nodes[n := node];
    forall m | m in nodes'
      ensures AppliedInv(c, h', nodes'[m])
    {
      if m != n {
        assert AppliedInv(c, h, nodes[m]);
        AppliedMono(c, h, h', nodes[m], nodes[m]);
      }
    }
  }

  lemma CarriedMono(c: Config, h: History, h': History, net: Network)
    requires Extends(h, h') && AllCarried(c, h, net)
    ensures AllCarried(c, h', net)
  {
    forall m | m in net.appends
      ensures CarriedCommit(c, h', m)
    {
      assert CarriedCommit(c, h, m);
      SafePrefixMono(c, h, h', m.args.term, m.args.term, m.built[..m.args.leaderCommit + 1]);
    }
  }

  lemma AssembleSafety(c: Config, s: Cluster, s': Cluster, n: NodeId, term: nat)
    requires SafetyInv(c, s) && n in s.nodes && n in s'.nodes
    requires s'.nodes == s.nodes[n := s'.nodes[n]]
    requires Moves(c, s.history, s'.history, n, term)
    requires KeepInv(s'.history, n, s'.nodes[n].log)
    requires AppliedInv(c, s'.history, s'.nodes[n])
    requires VotesSafe(s'.history) && StartsInv(s'.history)
    requires AllCarried(c, s'.history, s'.net)
    ensures SafetyInv(c, s')
  {
    KeepOthers(c, s.history, s'.history, n, term, s.nodes, s'.nodes[n]);
    AppliedOthers(c, s.history, s'.history, s.nodes, n, s'.nodes[n]);
  }

  /** A step that neither votes, wins, acknowledges nor appends. */
  lemma QuietSafety(c: Config, s: Cluster, s': Cluster, n: NodeId)
    requires SafetyInv(c, s) && n in s.nodes
    requires s'.history == s.history
    requires n in s'.nodes && s'.nodes == s.nodes[n := s'.nodes[n]]
    requires s'.nodes[n].log == s.nodes[n].log
    requires AppliedInv(c, s'.history, s'.nodes[n])
    requires AllCarried(c, s'.history, s'.net)
    ensures SafetyInv(c, s')
  {
    forall m | m in s'.nodes
      ensures KeepInv(s'.history, m, s'.nodes[m].log) && AppliedInv(c, s'.history, s'.nodes[m])
    {
      assert KeepInv(s.history, m, s.nodes[m].log) && AppliedInv(c, s.history, s.nodes[m]);
    }
  }

  // ------------------------------------------------------------------ elections

  lemma InitSafety(c: Config)
    ensures SafetyInv(c, Init(c))
  {
    var s := Init(c);
    forall n | n in s.nodes
      ensures KeepInv(s.history, n, s.nodes[n].log) && AppliedInv(c, s.history, s.nodes[n])
    {
    }
  }

  lemma TimeoutSafety(c: Config, s: Cluster, n: NodeId)
    requires HistoryInv(c, s.history) && NodesInv(s.history, s.nodes) && SafetyInv(c, s) && n in s.nodes
    ensures SafetyInv(c, AfterTimeout(c, s, n))
  {
    var s' := AfterTimeout(c, s, n);
    var h, h' := s.history, s'.history;
    var node := s.nodes[n];
    var term := node.currentTerm + 1;
    var seat := Seat(n, term);
    assert NodeInv(h, n, node);
    CampaignActs(h, seat, node.log);
    assert Moves(c, h, h', n, term);
    assert KeepInv(h, n, node.log);
    KeepFrame(c, h, h', n, term, n, node.log, node.log);
    SelfVoteSafe(h', seat, node.log);
    VotesFrame(c, h, h', n, term);
    StartsFrame(c, h, h', n, term);
    assert AppliedInv(c, h, node);
    AppliedMono(c, h, h', node, s'.nodes[n]);
    CarriedMono(c, h, h', s.net);
    AssembleSafety(c, s, s', n, term);
  }

  lemma SelfVoteSafe(h: History, seat: Seat, log: Log)
    requires Voted(h, seat.node, seat.term, seat.node)
    requires seat in h.campaigns && h.campaigns[seat] == log && KeepInv(h, seat.node, log)
    ensures VoteSafe(h, seat)
  {
  }

  /** The vote check of section 5.4.1: a candidate whose log is at least as up to date
      has a leader's entry that the voter holds, if the later leader whose log the
      candidate's extends started with it. */
  lemma UpToDateCarries(c: Config, h: History, t: nat, k: nat, log: Log, candidate: Log)
    requires HistoryInv(c, h) && OwnEntry(h, t, k) && Holds(h, t, k, log)
    requires Backed(h, log) && Backed(h, candidate)
    requires UpToDate(LastTerm(candidate), LastIndex(candidate), log)
    requires var u := LastTerm(candidate); t < u && u in h.reigns ==> Holds(h, t, k, h.reigns[u].start)
    ensures Holds(h, t, k, candidate)
  {
    BackedSorted(c, h, log);
    assert log[k - 1].term == t;
    var mine, theirs := LastTerm(log), LastTerm(candidate);
    assert EntryBacked(h, log, |log| - 1) && EntryBacked(h, candidate, |candidate| - 1);
    assert log[..|log| - 1 + 1] == log && candidate[..|candidate| - 1 + 1] == candidate;
    if theirs > mine {
      var r := h.reigns[theirs];
      assert ReignInv(c, h, theirs);
      assert CampaignInv(c, h, Seat(r.leader, theirs));
      assert |r.start| <= |candidate|;
    }
  }

  /** So a candidate has what the voter holds, unless it can never be committed. */
  lemma UpToDateHolds(c: Config, h: History, t: nat, k: nat, log: Log, candidate: Log)
    requires HistoryInv(c, h) && StartsInv(h)
    requires OwnEntry(h, t, k) && Holds(h, t, k, log)
    requires Backed(h, log) && Backed(h, candidate)
    requires UpToDate(LastTerm(candidate), LastIndex(candidate), log)
    ensures Holds(h, t, k, candidate) || Blocked(h, t, k)
  {
    if !Blocked(h, t, k) {
      var u := LastTerm(candidate);
      assert u in h.reigns ==> StartInv(h, u);
      UpToDateCarries(c, h, t, k, log, candidate);
    }
  }

  lemma GrantSafety(c: Config, h: History, n: NodeId, node: Node, req: VoteRequest)
    requires HistoryInv(c, h) && NodeInv(h, n, node) && VoteRequestInv(h, req)
    requires VotesSafe(h) && StartsInv(h) && KeepInv(h, n, node.log)
    requires GrantsVote(node, req.term, req.candidate, req.lastIndex, req.lastTerm)
    ensures VotesSafe(RecordVote(h, Seat(n, req.term), req.candidate))
  {
    var seat := Seat(n, req.term);
    var h' := RecordVote(h, seat, req.candidate);
    var log := h.campaigns[Seat(req.candidate, req.term)];
    VoteActs(h, seat, req.candidate);
    assert CampaignInv(c, h, Seat(req.candidate, req.term));
    forall t: nat, k: nat | OwnEntry(h, t, k) && Acked(h, n, t, k)
      ensures Holds(h, t, k, log) || Blocked(h, t, k)
    {
      if !Blocked(h, t, k) {
        UpToDateHolds(c, h, t, k, node.log, log);
      }
    }
    GrantedVoteSafe(h, h', seat, log);
    VotesFrame(c, h, h', n, if req.term > node.currentTerm then req.term else node.currentTerm);
  }

  lemma GrantedVoteSafe(h: History, h': History, seat: Seat, log: Log)
    requires h'.reigns == h.reigns && h'.accepted == h.accepted && seat in h'.votes
    requires Seat(h'.votes[seat], seat.term) in h'.campaigns
    requires h'.campaigns[Seat(h'.votes[seat], seat.term)] == log
    requires forall t: nat, k: nat {:trigger Acked(h, seat.node, t, k)} ::
               OwnEntry(h, t, k) && Acked(h, seat.node, t, k) ==> Holds(h, t, k, log) || Blocked(h, t, k)
    ensures VoteSafe(h', seat)
  {
    forall t: nat, k: nat | OwnEntry(h', t, k) && t < seat.term && Acked(h', seat.node, t, k)
      ensures Holds(h', t, k, log) || Blocked(h', t, k)
    {
      assert OwnEntry(h, t, k) && Acked(h, seat.node, t, k);
      if Blocked(h, t, k) {
        BlockedSame(h, h', t, k);
      }
    }
  }

  lemma BlockedSame(h: History, h': History, t: nat, k: nat)
    requires h'.reigns == h.reigns && h'.accepted == h.accepted && Blocked(h, t, k)
    ensures Blocked(h', t, k)
  {
    var w: nat :| BlockedBy(h, t, k, w);
    forall v | v in h'.reigns[w].voters
      ensures !Acked(h', v, t, k)
    {
      assert !Acked(h, v, t, k);
    }
    assert BlockedBy(h', t, k, w);
  }

  lemma VoteRequestSafety(c: Config, s: Cluster, req: VoteRequest)
    requires Inv(c, s) && SafetyInv(c, s) && req in s.net.voteRequests && req.to in s.nodes
    ensures SafetyInv(c, AfterVoteRequest(s, req))
  {
    var s' := AfterVoteRequest(s, req);
    var h, h' := s.history, s'.history;
    var n, node := req.to, s.nodes[req.to];
    assert NodeInv(h, n, node) && KeepInv(h, n, node.log) && AppliedInv(c, h, node);
    assert VoteRequestInv(h, req);
    var term := if req.term > node.currentTerm then req.term else node.currentTerm;
    if GrantsVote(node, req.term, req.candidate, req.lastIndex, req.lastTerm) {
      VoteActs(h, Seat(n, req.term), req.candidate);
      GrantSafety(c, h, n, node, req);
    }
    assert Moves(c, h, h', n, term);
    KeepFrame(c, h, h', n, term, n, node.log, node.log);
    StartsFrame(c, h, h', n, term);
    AppliedMono(c, h, h', node, s'.nodes[n]);
    CarriedMono(c, h, h', s.net);
    assert AllCarried(c, h', s'.net);
    AssembleSafety(c, s, s', n, term);
  }

  /** A winner's log has what any of its voters had acknowledged, so an entry it lacks
      is blocked by this very majority. */
  lemma WinStart(c: Config, h: History, seat: Seat, voters: set<NodeId>, log: Log)
    requires HistoryInv(c, h) && VotesSafe(h) && SeatsWithin(h, seat.node, seat.term)
    requires seat in h.campaigns && h.campaigns[seat] == log
    requires seat.term !in h.reigns && seat !in h.accepted
    requires forall v :: v in voters ==> Voted(h, v, seat.term, seat.node)
    ensures StartInv(RecordWin(h, seat, voters, log), seat.term)
  {
    var h' := RecordWin(h, seat, voters, log);
    WinActs(h, seat, voters, log);
    assert AcksOnlyAt(h, h', seat.node, seat.term);
    forall t: nat, k: nat | OwnEntry(h', t, k) && t < seat.term
      ensures Holds(h', t, k, log) || Blocked(h', t, k)
    {
      assert OwnEntry(h, t, k);
      if v :| v in voters && Acked(h', v, t, k) {
        assert Accepted(h', v, t) == Accepted(h, v, t);
        assert Acked(h, v, t, k);
        assert Voted(h, v, seat.term, seat.node);
        assert Seat(h.votes[Seat(v, seat.term)], seat.term) == seat;
        assert VoteSafe(h, Seat(v, seat.term));
        if Blocked(h, t, k) {
          BlockedMono(c, h, h', seat.node, seat.term, t, k);
        }
      } else {
        assert BlockedBy(h', t, k, seat.term);
      }
    }
  }

  lemma WinSafety(c: Config, s: Cluster, seat: Seat)
    requires c.Valid() && Inv(c, s) && SafetyInv(c, s) && seat in s.elections && seat.node in s.nodes
    requires WinsElection(s.nodes[seat.node], seat.term, s.elections[seat].votes, |c.members|)
    ensures SafetyInv(c, AfterElection(c, s, seat))
  {
    var s' := AfterElection(c, s, seat);
    var h, h' := s.history, s'.history;
    var n, node, e := seat.node, s.nodes[seat.node], s.elections[seat];
    assert NodeInv(h, n, node) && KeepInv(h, n, node.log) && AppliedInv(c, h, node);
    assert ElectionInv(c, h, seat, e);
    FreshTerm(c, h, seat, e);
    assert seat !in h.accepted by {
      assert seat in h.accepted ==> AcceptedInv(c, h, seat);
    }
    WinActs(h, seat, e.granted + {n}, node.log);
    assert Moves(c, h, h', n, seat.term);
    WinStart(c, h, seat, e.granted + {n}, node.log);
    WinKeeps(c, h, h', seat, node.log);
    VotesFrame(c, h, h', n, seat.term);
    StartsFrame(c, h, h', n, seat.term);
    AppliedMono(c, h, h', node, s'.nodes[n]);
    CarriedMono(c, h, h', s.net);
    AssembleSafety(c, s, s', n, seat.term);
  }

  lemma WinKeeps(c: Config, h: History, h': History, seat: Seat, log: Log)
    requires Moves(c, h, h', seat.node, seat.term) && KeepInv(h, seat.node, log)
    requires seat in h.campaigns && h.campaigns[seat] == log
    requires seat.term in h'.reigns && h'.reigns[seat.term].log == log
    ensures KeepInv(h', seat.node, log)
  {
    assert CampaignInv(c, h, seat);
    forall t: nat, k: nat | OwnEntry(h', t, k) && Acked(h', seat.node, t, k)
      ensures Acked(h, seat.node, t, k)
    {
      assert t != seat.term;
      assert Accepted(h', seat.node, t) == Accepted(h, seat.node, t);
    }
    KeepFrame(c, h, h', seat.node, seat.term, seat.node, log, log);
  }

  // --------------------------------------------------------------- leader steps

  lemma SubmitSafety(c: Config, s: Cluster, n: NodeId, data: Data)
    requires HistoryInv(c, s.history) && NodesInv(s.history, s.nodes) && SafetyInv(c, s)
    requires n in s.nodes && s.nodes[n].role == Leader
    ensures SafetyInv(c, AfterSubmit(s, n, data))
  {
    var s' := AfterSubmit(s, n, data);
    var h, h' := s.history, s'.history;
    var node, node' := s.nodes[n], s'.nodes[n];
    var term := node.currentTerm;
    assert NodeInv(h, n, node) && KeepInv(h, n, node.log) && AppliedInv(c, h, node);
    EntryActs(h, Seat(n, term), node'.log);
    assert Moves(c, h, h', n, term);
    forall t: nat, k: nat | OwnEntry(h', t, k) && Acked(h', n, t, k)
      ensures Acked(h, n, t, k) || Holds(h', t, k, node'.log)
    {
      if t != term {
        assert Accepted(h', n, t) == Accepted(h, n, t);
      }
    }
    KeepFrame(c, h, h', n, term, n, node.log, node'.log);
    VotesFrame(c, h, h', n, term);
    StartsFrame(c, h, h', n, term);
    AppliedMono(c, h, h', node, node');
    CarriedMono(c, h, h', s.net);
    AssembleSafety(c, s, s', n, term);
  }

  lemma SendAppendSafety(c: Config, s: Cluster, n: NodeId, peer: NodeId)
    requires SafetyInv(c, s) && n in s.nodes && peer in s.nodes[n].nextIndex
    ensures SafetyInv(c, AfterSendAppend(s, n, peer))
  {
    assert AppliedInv(c, s.history, s.nodes[n]);
  }

  // ------------------------------------------------------------ handling appends

  ghost predicate LogInv(h: History, node: Node) {
    Backed(h, node.log) && TermsBelow(node.log, node.currentTerm + 1)
  }

  /** A log that shares more with the leader's log than an append covers ends with
      entries of the append's own term. */
  lemma LongerSharedPrefix(c: Config, h: History, node: Node, m: Append, p: Log)
    requires HistoryInv(c, h) && AppendInv(c, h, m) && LogInv(h, node)
    requires m.args.term >= node.currentTerm
    requires p <= node.log && p <= h.reigns[m.args.term].log
    ensures |m.built| < |p| ==> EndIndex(m.args) < LastIndex(node.log) && LastTerm(node.log) == m.args.term
  {
    BuiltLog(c, h, m);
    BackedSorted(c, h, node.log);
    assert ReignInv(c, h, m.args.term);
    if |m.built| < |p| {
      assert node.log[|p| - 1] == p[|p| - 1] == h.reigns[m.args.term].log[|p| - 1];
    }
  }

  /** An append that has not been overtaken removes nothing that both logs share with
      the leader's log. */
  lemma HandleKeepsPrefix(c: Config, h: History, node: Node, m: Append, p: Log)
    requires HistoryInv(c, h) && AppendInv(c, h, m) && LogInv(h, node)
    requires m.args.term >= node.currentTerm && !Overtaken(node, m.args)
    requires p <= node.log && p <= h.reigns[m.args.term].log
    ensures p <= NewLog(node, m.args)
  {
    AppendEffect(c, h, m, node.log);
    LongerSharedPrefix(c, h, node, m, p);
  }

  lemma AppendMoves(c: Config, h: History, n: NodeId, node: Node, m: Append)
    requires HistoryInv(c, h) && AppendInv(c, h, m) && NodeInv(h, n, node) && n in c.Nodes()
    ensures Moves(c, h, AppendRecord(h, n, node, m), n, NewTerm(node, m.args))
  {
    AppendHistory(c, h, n, node, m);
    RecordAcks(h, Seat(n, m.args.term), AddsEntries(node, m.args),
               LogAfterAppend(node.log, m.args.prevIndex, m.args.prevTerm, m.args.entries), NewTerm(node, m.args));
    SeatsLater(h, n, node.currentTerm, NewTerm(node, m.args));
  }

  lemma RecordAcks(h: History, seat: Seat, adds: bool, log: Log, term: nat)
    requires adds ==> seat.term == term
    ensures AcksOnlyAt(h, RecordAppend(h, seat, adds, log), seat.node, term)
  {
  }

  lemma AppendKeeps(c: Config, h: History, n: NodeId, node: Node, m: Append)
    requires HistoryInv(c, h) && AppendInv(c, h, m) && NodeInv(h, n, node) && n in c.Nodes()
    requires KeepInv(h, n, node.log) && StartsInv(h) && !Overtaken(node, m.args)
    ensures var h' := AppendRecord(h, n, node, m);
            Moves(c, h, h', n, NewTerm(node, m.args)) && KeepInv(h', n, NewLog(node, m.args))
  {
    var h', log', term := AppendRecord(h, n, node, m), NewLog(node, m.args), NewTerm(node, m.args);
    AppendMoves(c, h, n, node, m);
    forall t: nat, k: nat | OwnEntry(h', t, k) && Acked(h', n, t, k)
      ensures Holds(h', t, k, log') || Blocked(h', t, k)
    {
      assert OwnEntry(h, t, k);
      if Acked(h, n, t, k) {
        if Blocked(h, t, k) {
          BlockedMono(c, h, h', n, term, t, k);
        } else {
          assert Seat(n, t) in h.accepted;
          AckedKept(c, h, node, m, t, k);
        }
      } else {
        AppendEffect(c, h, m, node.log);
        NewlyAcked(c, h, n, node, m,
                   LogAfterAppend(node.log, m.args.prevIndex, m.args.prevTerm, m.args.entries), t, k);
      }
    }
  }

  lemma HeldByLaterReign(c: Config, h: History, t: nat, k: nat, w: nat)
    requires HistoryInv(c, h) && StartsInv(h) && OwnEntry(h, t, k) && !Blocked(h, t, k)
    requires w in h.reigns && t <= w
    ensures h.reigns[t].log[..k] <= h.reigns[w].log
  {
    if t < w {
      assert StartInv(h, w) && ReignInv(c, h, w);
    }
  }

  lemma AckedKept(c: Config, h: History, node: Node, m: Append, t: nat, k: nat)
    requires HistoryInv(c, h) && AppendInv(c, h, m) && LogInv(h, node) && StartsInv(h) && !Overtaken(node, m.args)
    requires OwnEntry(h, t, k) && Holds(h, t, k, node.log) && t <= node.currentTerm && !Blocked(h, t, k)
    ensures Holds(h, t, k, NewLog(node, m.args))
  {
    if m.args.term >= node.currentTerm {
      HeldByLaterReign(c, h, t, k, m.args.term);
      HandleKeepsPrefix(c, h, node, m, h.reigns[t].log[..k]);
    }
  }

  lemma AcceptedAfter(h: History, seat: Seat, accepts: bool, log: Log, t: nat)
    ensures Accepted(RecordAppend(h, seat, accepts, log), seat.node, t) ==
            if t == seat.term && accepts && |Accepted(h, seat.node, t)| < |log| then log
            else Accepted(h, seat.node, t)
  {
  }

  lemma NewlyAcked(c: Config, h: History, n: NodeId, node: Node, m: Append, log': Log, t: nat, k: nat)
    requires AppendInv(c, h, m) && (AddsEntries(node, m.args) ==> log' == m.built == NewLog(node, m.args))
    requires OwnEntry(h, t, k) && !Acked(h, n, t, k)
    requires Acked(RecordAppend(h, Seat(n, m.args.term), AddsEntries(node, m.args), log'), n, t, k)
    ensures Holds(h, t, k, NewLog(node, m.args))
  {
    AcceptedAfter(h, Seat(n, m.args.term), AddsEntries(node, m.args), log', t);
  }

  lemma PayloadsConcat(a: Log, b: Log)
    ensures Payloads(a + b) == Payloads(a) + Payloads(b)
  {
  }

  /** A follower's commit: `min` picks the leader's commit index, and everything newly
      applied is shared with the leader. */
  lemma FollowCommitApplied(c: Config, h: History, node: Node, m: Append)
    requires AppliedInv(c, h, node) && CarriedCommit(c, h, m)
    requires node.currentTerm == m.args.term && m.built <= node.log
    ensures AppliedInv(c, h, FollowCommit(node, m.args.leaderCommit))
    ensures m.args.leaderCommit > node.commitIndex ==>
              FollowCommit(node, m.args.leaderCommit).commitIndex == m.args.leaderCommit
  {
    var lc := m.args.leaderCommit;
    if lc > node.commitIndex {
      var before, added := node.log[..node.commitIndex + 1], node.log[node.commitIndex + 1..lc + 1];
      assert node.log[..lc + 1] == before + added;
      PayloadsConcat(before, added);
      assert node.log[..lc + 1] == m.built[..lc + 1];
    }
  }

  lemma AppliedRelog(c: Config, h: History, node: Node, node': Node)
    requires AppliedInv(c, h, node) && node.currentTerm <= node'.currentTerm
    requires node'.commitIndex == node.commitIndex && node'.lastApplied == node.lastApplied
    requires node'.stateMachine == node.stateMachine
    requires node.log[..node.commitIndex + 1] <= node'.log
    ensures AppliedInv(c, h, node')
  {
    var applied := node.log[..node.commitIndex + 1];
    assert node'.log[..node.commitIndex + 1] == applied;
    SafePrefixMono(c, h, h, node.currentTerm, node'.currentTerm, applied);
  }

  lemma AppliedStays(c: Config, h: History, node: Node, m: Append, applied: Log)
    requires c.Valid() && HistoryInv(c, h) && AppendInv(c, h, m) && LogInv(h, node)
    requires StartsInv(h) && !Overtaken(node, m.args)
    requires applied <= node.log && SafePrefix(c, h, node.currentTerm, applied)
    ensures applied <= NewLog(node, m.args)
  {
    if m.args.term >= node.currentTerm {
      SafePrefixOfReign(c, h, node.currentTerm, applied, m.args.term);
      HandleKeepsPrefix(c, h, node, m, applied);
    }
  }

  /** An append that has not been overtaken leaves what was applied in the log, and an
      accepted one leaves the sender's log there. */
  lemma AppendShares(c: Config, h: History, node: Node, m: Append)
    requires c.Valid() && HistoryInv(c, h) && AppendInv(c, h, m) && LogInv(h, node)
    requires StartsInv(h) && !Overtaken(node, m.args) && AppliedInv(c, h, node)
    ensures Shares(node, m)
  {
    AppliedStays(c, h, node, m, node.log[..node.commitIndex + 1]);
    AppendEffect(c, h, m, node.log);
  }

  ghost predicate Shares(node: Node, m: Append) {
    && node.commitIndex < |node.log| && node.log[..node.commitIndex + 1] <= NewLog(node, m.args)
    && (AppendSucceeds(node, m.args) ==> m.built <= NewLog(node, m.args))
  }

  lemma AppendApplied(c: Config, h: History, node: Node, m: Append, node': Node)
    requires AppliedInv(c, h, node) && CarriedCommit(c, h, m) && Shares(node, m)
    requires node' == HandleAppendEntries(node, m.args)
    ensures AppliedInv(c, h, node')
  {
    var a := m.args;
    if a.term >= node.currentTerm {
      var stepped := if a.term > node.currentTerm then StepDown(node, a.term) else node;
      var follower := stepped.(leaderId := Some(a.leader), role := Follower, log := NewLog(node, a));
      AppliedRelog(c, h, node, follower);
      if AcceptsAppend(node.log, a.prevIndex, a.prevTerm) {
        FollowCommitApplied(c, h, follower, m);
      }
    }
  }

  lemma HandleAppendSafety(c: Config, s: Cluster, m: Append)
    requires c.Valid() && Inv(c, s) && SafetyInv(c, s) && m in s.net.appends && m.to in s.nodes
    requires !Overtaken(s.nodes[m.to], m.args)
    ensures SafetyInv(c, AfterAppend(s, m))
  {
    var s' := AfterAppend(s, m);
    var h, h' := s.history, s'.history;
    var n, node, node' := m.to, s.nodes[m.to], s'.nodes[m.to];
    var term := node'.currentTerm;
    assert NodeInv(h, n, node) && KeepInv(h, n, node.log) && AppliedInv(c, h, node);
    assert AppendInv(c, h, m) && CarriedCommit(c, h, m);
    HandleAppendFields(node, m.args);
    AppendKeeps(c, h, n, node, m);
    AppendShares(c, h, node, m);
    AppendApplied(c, h, node, m, node');
    AppliedMono(c, h, h', node', node');
    VotesFrame(c, h, h', n, term);
    StartsFrame(c, h, h', n, term);
    CarriedMono(c, h, h', s.net);
    assert AllCarried(c, h', s'.net);
    AssembleSafety(c, s, s', n, term);
  }

  // ------------------------------------------------------------------- commits

  /** The commit rule commits: the leader and the counted peers are a majority that
      acknowledged the entry. */
  lemma CommittableIsCommitted(c: Config, h: History, n: NodeId, node: Node, index: nat)
    requires LeaderInv(h, n, node) && KnowsPeers(c, n, node) && n in c.Nodes()
    requires Committable(node, |c.members|, index)
    ensures Committed(c, h, node.currentTerm, index + 1)
  {
    var t := node.currentTerm;
    var counted := Holders(node.matchIndex, index) + {n};
    forall p | p in counted
      ensures p in AckSet(c, h, t, index + 1)
    {
      if p != n {
        assert PeerIndexInv(h, node, p);
      }
      assert Acked(h, p, t, index + 1);
    }
    assert n !in Holders(node.matchIndex, index);
    SubsetSize(counted, AckSet(c, h, t, index + 1));
  }

  lemma CommitApplied(c: Config, h: History, n: NodeId, node: Node)
    requires LeaderInv(h, n, node) && KnowsPeers(c, n, node) && n in c.Nodes()
    requires AppliedInv(c, h, node)
    ensures AppliedInv(c, h, UpdateCommitIndex(node, |c.members|))
  {
    var target := CommitTarget(node, |c.members|, LastIndex(node.log));
    if target != node.commitIndex {
      CommittableIsCommitted(c, h, n, node, target);
      var before, added := node.log[..node.commitIndex + 1], node.log[node.commitIndex + 1..target + 1];
      assert node.log[..target + 1] == before + added;
      PayloadsConcat(before, added);
      assert CommittedBy(c, h, node.log[..target + 1], node.currentTerm, target + 1);
    }
  }

  lemma ReplyFields(node: Node, r: AppendReply, size: nat)
    requires r.append.to in node.nextIndex
    ensures var node' := HandleAppendReply(node, r.append.to, r.append.args, r.term, r.success, size);
            if CountsAck(node, r)
            then node' == UpdateCommitIndex(RecordAck(node, r.append.to, EndIndex(r.append.args)), size)
            else && node'.commitIndex == node.commitIndex && node'.lastApplied == node.lastApplied
                 && node'.stateMachine == node.stateMachine && node'.log == node.log
                 && node'.currentTerm >= node.currentTerm
  {
  }

  lemma AckApplied(c: Config, h: History, n: NodeId, node: Node, r: AppendReply)
    requires LeaderInv(h, n, Credited(node, r)) && CountsAck(node, r)
    requires KnowsPeers(c, n, node) && n in c.Nodes() && r.append.to in Peers(c, n) && AppliedInv(c, h, node)
    ensures var node' := UpdateCommitIndex(Credited(node, r), |c.members|);
            AppliedInv(c, h, node') && node'.log == node.log
  {
    var acked := Credited(node, r);
    AppliedMono(c, h, h, node, acked);
    assert KnowsPeers(c, n, acked);
    CommitApplied(c, h, n, acked);
    CommitFields(acked, |c.members|);
  }

  lemma AppendReplyApplied(c: Config, h: History, n: NodeId, node: Node, r: AppendReply)
    requires CreditSound(h, n, node, r)
    requires KnowsPeers(c, n, node) && n in c.Nodes() && r.append.to in Peers(c, n) && AppliedInv(c, h, node)
    ensures var node' := HandleAppendReply(node, r.append.to, r.append.args, r.term, r.success, |c.members|);
            AppliedInv(c, h, node') && node'.log == node.log
  {
    var node' := HandleAppendReply(node, r.append.to, r.append.args, r.term, r.success, |c.members|);
    ReplyFields(node, r, |c.members|);
    if CountsAck(node, r) {
      AckApplied(c, h, n, node, r);
    } else {
      AppliedMono(c, h, h, node, node');
    }
  }

  lemma AppendReplySafety(c: Config, s: Cluster, r: AppendReply)
    requires Inv(c, s) && SafetyInv(c, s) && Enabled(c, s, ReceiveAppendReply(r))
    requires r.append.to in s.nodes[r.append.args.leader].nextIndex
    ensures SafetyInv(c, AfterAppendReply(c, s, r))
  {
    var n := r.append.args.leader;
    var s' := AfterAppendReply(c, s, r);
    assert NodeInv(s.history, n, s.nodes[n]) && KnowsPeers(c, n, s.nodes[n]);
    assert AppendReplyInv(c, s.history, r);
    assert AppliedInv(c, s.history, s.nodes[n]);
    CreditIsSound(c, s.history, n, s.nodes[n], r);
    AppendReplyApplied(c, s.history, n, s.nodes[n], r);
    QuietSafety(c, s, s', n);
  }

  // ----------------------------------------------------------------- all steps

  lemma VoteReplySafety(c: Config, s: Cluster, reply: VoteReply)
    requires HistoryInv(c, s.history) && NodesInv(s.history, s.nodes) && SafetyInv(c, s)
    requires Enabled(c, s, ReceiveVote(reply))
    ensures SafetyInv(c, AfterVoteReply(s, reply))
  {
    var n := reply.request.candidate;
    var s' := AfterVoteReply(s, reply);
    assert AppliedInv(c, s.history, s.nodes[n]);
    AppliedMono(c, s.history, s.history, s.nodes[n], s'.nodes[n]);
    QuietSafety(c, s, s', n);
  }

  lemma FinishElectionSafety(c: Config, s: Cluster, seat: Seat)
    requires c.Valid() && Inv(c, s) && SafetyInv(c, s) && seat in s.elections && seat.node in s.nodes
    ensures SafetyInv(c, AfterElection(c, s, seat))
  {
    if WinsElection(s.nodes[seat.node], seat.term, s.elections[seat].votes, |c.members|) {
      WinSafety(c, s, seat);
    } else {
      assert AppliedInv(c, s.history, s.nodes[seat.node]);
      QuietSafety(c, s, AfterElection(c, s, seat), seat.node);
    }
  }

  /** The safety invariant is inductive when handled appends are not overtaken. */
  lemma StepSafety(c: Config, s: Cluster, step: Step)
    requires c.Valid() && Inv(c, s) && SafetyInv(c, s) && Enabled(c, s, step)
    requires step.HandleAppend? ==> NotOvertaken(s, step.append)
    ensures SafetyInv(c, Apply(c, s, step))
  {
    match step
    case Timeout(n) => TimeoutSafety(c, s, n);
    case AskVote(seat) =>
    case HandleVoteRequest(req) => VoteRequestSafety(c, s, req);
    case ReceiveVote(reply) => VoteReplySafety(c, s, reply);
    case SkipPeer(seat) =>
    case FinishElection(seat) => FinishElectionSafety(c, s, seat);
    case Submit(n, data) =>
      if s.nodes[n].role == Leader {
        SubmitSafety(c, s, n, data);
      } else {
        SubmitRefused(s, n, data);
      }
    case SendAppend(n, peer) =>
      assert KnowsPeers(c, n, s.nodes[n]);
      SendAppendSafety(c, s, n, peer);
    case HandleAppend(m) => HandleAppendSafety(c, s, m);
    case ReceiveAppendReply(r) =>
      assert KnowsPeers(c, r.append.args.leader, s.nodes[r.append.args.leader]);
      AppendReplySafety(c, s, r);
  }
}
