/** The safety properties of Raft (Figure 3 of the paper), for every run. */
module RaftTheorems {
  import opened Common
  import opened RaftNode
  import opened RaftCluster
  import opened RaftInvariant
  import opened RaftPreservation
  import opened RaftSafety
  import opened RaftSafetyPreservation

  // ------------------------------------------------------- invariants along runs

  /** One step of a run, as the definition of runs gives it. */
  lemma RunStep(c: Config, r: Run, i: nat)
    requires IsRun(c, r) && i < |r.steps|
    ensures TypeOk(c, r.states[i]) && Enabled(c, r.states[i], r.steps[i])
    ensures r.states[i + 1] == Apply(c, r.states[i], r.steps[i])
  {
    var step := r.steps[i];
  }

  lemma {:induction false} RunInv(c: Config, r: Run, i: nat)
    requires IsRun(c, r) && i <= |r.steps|
    ensures Inv(c, r.states[i])
  {
    if i == 0 {
      InitInv(c);
    } else {
      RunInv(c, r, i - 1);
      var step := r.steps[i - 1];
      StepInv(c, r.states[i - 1], step);
    }
  }

  lemma {:induction false} RunSafety(c: Config, r: Run, i: nat)
    requires IsRun(c, r) && InOrder(r) && i <= |r.steps|
    ensures Inv(c, r.states[i]) && SafetyInv(c, r.states[i])
  {
    RunInv(c, r, i);
    if i == 0 {
      InitSafety(c);
    } else {
      RunSafety(c, r, i - 1);
      var step := r.steps[i - 1];
      StepSafety(c, r.states[i - 1], step);
    }
  }

  /** Every step extends the history. */
  lemma StepExtends(c: Config, s: Cluster, step: Step)
    requires c.Valid() && Inv(c, s) && Enabled(c, s, step)
    ensures Extends(s.history, Apply(c, s, step).history)
  {
    match step
    case Timeout(n) => CampaignExtends(c, s, n);
    case AskVote(seat) =>
    case HandleVoteRequest(req) => VoteExtends(c, s, req);
    case ReceiveVote(reply) =>
    case SkipPeer(seat) =>
    case FinishElection(seat) => ElectionExtends(c, s, seat);
    case Submit(n, data) =>
      if s.nodes[n].role == Leader {
        SubmitExtends(c, s, n, data);
      } else {
        SubmitRefused(s, n, data);
      }
    case SendAppend(n, peer) =>
    case HandleAppend(m) => AppendExtends(c, s, m);
    case ReceiveAppendReply(r) =>
  }

  lemma CampaignExtends(c: Config, s: Cluster, n: NodeId)
    requires Inv(c, s) && n in s.nodes
    ensures Extends(s.history, AfterTimeout(c, s, n).history)
  {
    assert NodeInv(s.history, n, s.nodes[n]);
    CampaignHistory(c, s.history, n, s.nodes[n]);
  }

  lemma SubmitExtends(c: Config, s: Cluster, n: NodeId, data: Data)
    requires Inv(c, s) && n in s.nodes && s.nodes[n].role == Leader
    ensures Extends(s.history, AfterSubmit(s, n, data).history)
  {
    assert NodeInv(s.history, n, s.nodes[n]);
    EntryHistory(c, s.history, n, s.nodes[n], data);
  }

  lemma AppendExtends(c: Config, s: Cluster, m: Append)
    requires Inv(c, s) && m in s.net.appends && m.to in s.nodes
    ensures Extends(s.history, AfterAppend(s, m).history)
  {
    assert NodeInv(s.history, m.to, s.nodes[m.to]) && AppendInv(c, s.history, m);
    AppendHistory(c, s.history, m.to, s.nodes[m.to], m);
  }

  lemma VoteExtends(c: Config, s: Cluster, req: VoteRequest)
    requires Inv(c, s) && req in s.net.voteRequests && req.to in s.nodes
    ensures Extends(s.history, AfterVoteRequest(s, req).history)
  {
    assert NodeInv(s.history, req.to, s.nodes[req.to]) && VoteRequestInv(s.history, req);
    if GrantsVote(s.nodes[req.to], req.term, req.candidate, req.lastIndex, req.lastTerm) {
      GrantHistory(c, s.history, req.to, s.nodes[req.to], req);
    }
  }

  lemma ElectionExtends(c: Config, s: Cluster, seat: Seat)
    requires c.Valid() && Inv(c, s) && seat in s.elections && seat.node in s.nodes
    ensures Extends(s.history, AfterElection(c, s, seat).history)
  {
    var node := s.nodes[seat.node];
    assert NodeInv(s.history, seat.node, node) && KnowsPeers(c, seat.node, node);
    assert ElectionInv(c, s.history, seat, s.elections[seat]);
    if WinsElection(node, seat.term, s.elections[seat].votes, |c.members|) {
      WinHistory(c, s.history, seat, s.elections[seat], node);
    }
  }

  lemma ExtendsTrans(a: History, b: History, d: History)
    requires Extends(a, b) && Extends(b, d)
    ensures Extends(a, d)
  {
    forall t | t in a.reigns
      ensures t in d.reigns && ReignGrows(a.reigns[t], d.reigns[t])
    {
      assert ReignGrows(a.reigns[t], b.reigns[t]) && ReignGrows(b.reigns[t], d.reigns[t]);
    }
  }

  lemma {:induction false} RunExtends(c: Config, r: Run, i: nat, j: nat)
    requires IsRun(c, r) && i <= j <= |r.steps|
    ensures Extends(r.states[i].history, r.states[j].history)
    decreases j
  {
    if i < j {
      RunExtends(c, r, i, j - 1);
      RunInv(c, r, j - 1);
      var step := r.steps[j - 1];
      StepExtends(c, r.states[j - 1], step);
      ExtendsTrans(r.states[i].history, r.states[j - 1].history, r.states[j].history);
    }
  }

  /** Members are always there. */
  lemma Present(c: Config, r: Run, i: nat, n: NodeId)
    requires IsRun(c, r) && i <= |r.steps| && n in c.Nodes()
    ensures n in r.states[i].nodes
    ensures NodeInv(r.states[i].history, n, r.states[i].nodes[n]) && KnowsPeers(c, n, r.states[i].nodes[n])
  {
    RunInv(c, r, i);
    assert NodeInv(r.states[i].history, n, r.states[i].nodes[n]);
    assert KnowsPeers(c, n, r.states[i].nodes[n]);
  }

  /** A log seen at any time, through the history of the whole run. */
  lemma LogInRun(c: Config, r: Run, i: nat, n: NodeId)
    requires IsRun(c, r) && i <= |r.steps| && n in c.Nodes()
    ensures n in r.states[i].nodes
    ensures Backed(r.states[|r.steps|].history, r.states[i].nodes[n].log)
  {
    Present(c, r, i, n);
    RunExtends(c, r, i, |r.steps|);
    BackedMono(r.states[i].history, r.states[|r.steps|].history, r.states[i].nodes[n].log);
  }

  lemma LeaderInRun(c: Config, r: Run, i: nat, n: NodeId)
    requires IsRun(c, r) && i <= |r.steps| && n in c.Nodes()
    requires n in r.states[i].nodes && r.states[i].nodes[n].role == Leader
    ensures var h, node := r.states[|r.steps|].history, r.states[i].nodes[n];
            && node.currentTerm in h.reigns
            && h.reigns[node.currentTerm].leader == n
            && h.reigns[node.currentTerm].start <= node.log <= h.reigns[node.currentTerm].log
  {
    var node := r.states[i].nodes[n];
    Present(c, r, i, n);
    RunInv(c, r, i);
    RunExtends(c, r, i, |r.steps|);
    assert ReignInv(c, r.states[i].history, node.currentTerm);
    assert ReignGrows(r.states[i].history.reigns[node.currentTerm],
                      r.states[|r.steps|].history.reigns[node.currentTerm]);
  }

  // ------------------------------------------- properties without any assumption

  /** Election Safety: two leaders of one term, at any two moments, are one node. */
  lemma ElectionSafety(c: Config, r: Run, i: nat, j: nat, a: NodeId, b: NodeId)
    requires IsRun(c, r) && i <= |r.steps| && j <= |r.steps|
    requires a in r.states[i].nodes && b in r.states[j].nodes
    requires r.states[i].nodes[a].role == Leader && r.states[j].nodes[b].role == Leader
    requires r.states[i].nodes[a].currentTerm == r.states[j].nodes[b].currentTerm
    ensures a == b
  {
    RunInv(c, r, i);
    RunInv(c, r, j);
    LeaderInRun(c, r, i, a);
    LeaderInRun(c, r, j, b);
  }

  /** In state k node p was in the given term, with its vote cast for node n. */
  predicate VotedAt(r: Run, k: nat, p: NodeId, term: nat, n: NodeId) {
    k < |r.states| && p in r.states[k].nodes
    && r.states[k].nodes[p].currentTerm == term && r.states[k].nodes[p].votedFor == Some(n)
  }

  /** Node p really voted for node n in the term, at some moment up to state i, and has
      not voted for anyone else in it since. */
  ghost predicate VotedBy(r: Run, i: nat, p: NodeId, term: nat, n: NodeId)
    requires i < |r.states|
  {
    && (exists k: nat {:trigger VotedAt(r, k, p, term, n)} :: k <= i && VotedAt(r, k, p, term, n))
    && VotedIn(r.states[i], p, term, n)
  }

  /** A node is past a term, or in it and its vote is for the given node. */
  ghost predicate VotedIn(s: Cluster, p: NodeId, term: nat, n: NodeId) {
    && p in s.nodes && s.nodes[p].currentTerm >= term
    && (s.nodes[p].currentTerm == term ==> s.nodes[p].votedFor == Some(n))
  }

  /** A step that records a vote leaves the voter in that term with that vote. */
  lemma VoteStep(c: Config, s: Cluster, step: Step, p: NodeId, t: nat)
    requires TypeOk(c, s) && Enabled(c, s, step)
    requires var h, h' := s.history, Apply(c, s, step).history;
             Seat(p, t) in h'.votes && (Seat(p, t) in h.votes ==> h'.votes[Seat(p, t)] != h.votes[Seat(p, t)])
    ensures var s' := Apply(c, s, step);
            && p in s'.nodes && s'.nodes[p].currentTerm == t
            && s'.nodes[p].votedFor == Some(s'.history.votes[Seat(p, t)])
  {
    assert step.Timeout? || step.HandleVoteRequest?;
  }

  /** The record of a vote is a vote the node really cast in that term. */
  lemma {:induction false} VoteWitness(c: Config, r: Run, i: nat, p: NodeId, t: nat) returns (k: nat)
    requires IsRun(c, r) && i <= |r.steps| && Seat(p, t) in r.states[i].history.votes
    ensures k <= i && VotedAt(r, k, p, t, r.states[i].history.votes[Seat(p, t)])
  {
    var s', seat := r.states[i], Seat(p, t);
    k := i;
    if i > 0 {
      var s, step := r.states[i - 1], r.steps[i - 1];
      RunStep(c, r, i - 1);
      if seat in s.history.votes && s'.history.votes[seat] == s.history.votes[seat] {
        k := VoteWitness(c, r, i - 1, p, t);
      } else {
        VoteStep(c, s, step, p, t);
      }
    }
  }

  lemma VoteIsReal(c: Config, r: Run, i: nat, p: NodeId, t: nat, n: NodeId)
    requires IsRun(c, r) && i <= |r.steps| && p in c.Nodes() && Voted(r.states[i].history, p, t, n)
    ensures VotedBy(r, i, p, t, n)
  {
    var k := VoteWitness(c, r, i, p, t);
    Present(c, r, i, p);
  }

  /** A running campaign's counter is one plus the number of distinct peers that voted
      for it in its term. */
  lemma VotesAreCounted(c: Config, r: Run, i: nat, seat: Seat)
    requires IsRun(c, r) && i <= |r.steps| && seat in r.states[i].elections
    ensures var e := r.states[i].elections[seat];
            && e.votes == 1 + |e.granted| && e.granted <= Peers(c, seat.node)
            && forall p :: p in e.granted ==> VotedBy(r, i, p, seat.term, seat.node)
  {
    RunInv(c, r, i);
    var s, e := r.states[i], r.states[i].elections[seat];
    assert ElectionInv(c, s.history, seat, e);
    forall p | p in e.granted
      ensures VotedBy(r, i, p, seat.term, seat.node)
    {
      VoteIsReal(c, r, i, p, seat.term, seat.node);
    }
  }

  /** A leader of a term was voted for by a majority in that term. */
  lemma LeaderHasMajority(c: Config, r: Run, i: nat, n: NodeId) returns (voters: set<NodeId>)
    requires IsRun(c, r) && i <= |r.steps| && n in r.states[i].nodes && r.states[i].nodes[n].role == Leader
    ensures voters <= c.Nodes() && c.Majority(voters)
    ensures forall p :: p in voters ==> VotedBy(r, i, p, r.states[i].nodes[n].currentTerm, n)
  {
    var s, term := r.states[i], r.states[i].nodes[n].currentTerm;
    RunInv(c, r, i);
    assert NodeInv(s.history, n, s.nodes[n]) && ReignInv(c, s.history, term);
    voters := s.history.reigns[term].voters;
    forall p | p in voters
      ensures VotedBy(r, i, p, term, n)
    {
      assert Voted(s.history, p, term, n);
      VoteIsReal(c, r, i, p, term, n);
    }
  }

  /** Log Matching: two logs, at any two moments, that have an entry of the same term at
      the same index agree on everything up to it. */
  lemma LogMatching(c: Config, r: Run, i: nat, j: nat, a: NodeId, b: NodeId, k: nat)
    requires IsRun(c, r) && i <= |r.steps| && j <= |r.steps|
    requires a in c.Nodes() && b in c.Nodes() && a in r.states[i].nodes && b in r.states[j].nodes
    requires k < |r.states[i].nodes[a].log| && k < |r.states[j].nodes[b].log|
    requires r.states[i].nodes[a].log[k].term == r.states[j].nodes[b].log[k].term
    ensures r.states[i].nodes[a].log[..k + 1] == r.states[j].nodes[b].log[..k + 1]
  {
    LogInRun(c, r, i, a);
    LogInRun(c, r, j, b);
    BackedMatch(r.states[|r.steps|].history, r.states[i].nodes[a].log, r.states[j].nodes[b].log, k);
  }

  /** Log Matching against an append in flight: if a log has an entry of the same term
      where the append carries one, it has the append's previous entry and everything
      the append carries up to there. */
  lemma LogMatchingInFlight(c: Config, r: Run, i: nat, j: nat, n: NodeId, m: Append, x: nat)
    requires IsRun(c, r) && i <= |r.steps| && j <= |r.steps|
    requires n in c.Nodes() && n in r.states[i].nodes && m in r.states[j].net.appends
    requires x < |m.args.entries| && m.args.prevIndex + 1 + x < |r.states[i].nodes[n].log|
    requires r.states[i].nodes[n].log[m.args.prevIndex + 1 + x].term == m.args.entries[x].term
    ensures var log, a := r.states[i].nodes[n].log, m.args;
            && AcceptsAppend(log, a.prevIndex, a.prevTerm)
            && log[a.prevIndex + 1..a.prevIndex + 1 + x + 1] == a.entries[..x + 1]
  {
    var log, a, h := r.states[i].nodes[n].log, m.args, r.states[|r.steps|].history;
    LogInRun(c, r, i, n);
    AppendInRun(c, r, j, m);
    MatchCarried(c, h, log, m, x);
  }

  /** An append seen at any time, through the history of the whole run. */
  lemma AppendInRun(c: Config, r: Run, j: nat, m: Append)
    requires IsRun(c, r) && j <= |r.steps| && m in r.states[j].net.appends
    ensures var h := r.states[|r.steps|].history; AppendInv(c, h, m) && Backed(h, m.built)
  {
    var h := r.states[|r.steps|].history;
    RunInv(c, r, j);
    assert AppendInv(c, r.states[j].history, m);
    RunExtends(c, r, j, |r.steps|);
    AppendMono(c, r.states[j].history, h, m);
    RunInv(c, r, |r.steps|);
    BuiltLog(c, h, m);
  }

  lemma MatchCarried(c: Config, h: History, log: Log, m: Append, x: nat)
    requires Backed(h, log) && Backed(h, m.built) && AppendInv(c, h, m)
    requires x < |m.args.entries| && m.args.prevIndex + 1 + x < |log|
    requires log[m.args.prevIndex + 1 + x].term == m.args.entries[x].term
    ensures var a := m.args;
            && AcceptsAppend(log, a.prevIndex, a.prevTerm)
            && log[a.prevIndex + 1..a.prevIndex + 1 + x + 1] == a.entries[..x + 1]
  {
    var a := m.args;
    var k := a.prevIndex + 1 + x;
    assert m.built[k] == a.entries[x];
    BackedMatch(h, log, m.built, k);
    assert log[..k + 1][a.prevIndex + 1..] == log[a.prevIndex + 1..k + 1];
    assert m.built[..k + 1][a.prevIndex + 1..] == a.entries[..x + 1];
    if a.prevIndex >= 0 {
      assert log[..k + 1][a.prevIndex] == m.built[..k + 1][a.prevIndex];
    }
  }

  /** A leader's view of a peer stays in range, so an append never falls back to the
      previous term 0 for an index that exists; what it carries is the leader's whole
      suffix, term and commit index. */
  lemma LeaderIndexBounds(c: Config, r: Run, i: nat, n: NodeId, p: NodeId)
    requires IsRun(c, r) && i <= |r.steps| && n in c.Nodes() && p in Peers(c, n)
    requires n in r.states[i].nodes && r.states[i].nodes[n].role == Leader
    ensures var node := r.states[i].nodes[n];
            && p in node.nextIndex && p in node.matchIndex
            && 0 <= node.nextIndex[p] <= |node.log|
            && -1 <= node.matchIndex[p] < |node.log|
            && var a := BuildAppend(node, n, p);
               && (a.prevIndex >= 0 ==> a.prevIndex < |node.log| && a.prevTerm == node.log[a.prevIndex].term)
               && EndIndex(a) == LastIndex(node.log) && CarriesSuffix(node.log, a.prevIndex, a.entries)
               && a.leaderCommit == node.commitIndex && a.term == node.currentTerm && a.leader == n
  {
    Present(c, r, i, n);
    assert PeerIndexInv(r.states[i].history, r.states[i].nodes[n], p);
    BuildCarriesSuffix(n, r.states[i].nodes[n], p);
  }

  // --------------------------------------- what the history stands for in the run

  /** In state k the node had the given log, in the given term. */
  predicate HadLog(r: Run, k: nat, n: NodeId, term: nat, log: Log) {
    k < |r.states| && n in r.states[k].nodes
    && r.states[k].nodes[n].currentTerm == term && r.states[k].nodes[n].log == log
  }

  /** A step that changes the record of what a node accepted leaves it with that log. */
  lemma AcceptedStep(c: Config, s: Cluster, step: Step, n: NodeId, t: nat)
    requires TypeOk(c, s) && NodesInv(s.history, s.nodes) && Enabled(c, s, step)
    requires var h, h' := s.history, Apply(c, s, step).history;
             Seat(n, t) in h'.accepted && (Seat(n, t) in h.accepted ==> h'.accepted[Seat(n, t)] != h.accepted[Seat(n, t)])
    ensures var s' := Apply(c, s, step);
            && n in s'.nodes && s'.nodes[n].currentTerm == t
            && s'.nodes[n].log == s'.history.accepted[Seat(n, t)]
  {
    match step
    case HandleAppend(m) =>
      HandleAppendFields(s.nodes[m.to], m.args);
    case FinishElection(seat) =>
    case Submit(m, data) =>
    case _ =>
  }

  /** The record of what was accepted is a log the node really had in that term. */
  lemma {:induction false} AcceptedWitness(c: Config, r: Run, i: nat, n: NodeId, t: nat) returns (k: nat)
    requires IsRun(c, r) && i <= |r.steps| && Seat(n, t) in r.states[i].history.accepted
    ensures k <= i && HadLog(r, k, n, t, r.states[i].history.accepted[Seat(n, t)])
  {
    var s', seat := r.states[i], Seat(n, t);
    k := i;
    if i > 0 {
      var s, step := r.states[i - 1], r.steps[i - 1];
      RunInv(c, r, i - 1);
      if seat in s.history.accepted && s'.history.accepted[seat] == s.history.accepted[seat] {
        k := AcceptedWitness(c, r, i - 1, n, t);
      } else {
        AcceptedStep(c, s, step, n, t);
      }
    }
  }

  /** Acknowledgement soundness: while a node leads term T, a match index m for a peer
      means that the peer had, in term T, a log agreeing with the leader's up to m. */
  lemma AcknowledgementSoundness(c: Config, r: Run, i: nat, n: NodeId, p: NodeId) returns (k: nat)
    requires IsRun(c, r) && i <= |r.steps| && n in c.Nodes() && p in Peers(c, n)
    requires n in r.states[i].nodes && r.states[i].nodes[n].role == Leader
    requires p in r.states[i].nodes[n].matchIndex && r.states[i].nodes[n].matchIndex[p] >= 0
    ensures var node := r.states[i].nodes[n];
            && k <= i && p in r.states[k].nodes && node.matchIndex[p] < |node.log|
            && r.states[k].nodes[p].currentTerm == node.currentTerm
            && node.log[..node.matchIndex[p] + 1] <= r.states[k].nodes[p].log
  {
    var node, h := r.states[i].nodes[n], r.states[i].history;
    Present(c, r, i, n);
    RunInv(c, r, i);
    assert PeerIndexInv(h, node, p);
    assert AcceptedInv(c, h, Seat(p, node.currentTerm));
    k := AcceptedWitness(c, r, i, p, node.currentTerm);
  }

  /** An append in flight was built by its leader, from the log recorded with it. */
  predicate BuiltAt(r: Run, k: nat, m: Append) {
    && k < |r.steps| && k < |r.states| && r.steps[k] == SendAppend(m.args.leader, m.to)
    && m.args.leader in r.states[k].nodes
    && var node := r.states[k].nodes[m.args.leader];
       && node.role == Leader && node.currentTerm == m.args.term && node.log == m.built
       && m.to in node.nextIndex && m.args == BuildAppend(node, m.args.leader, m.to)
       && m.args.leaderCommit == node.commitIndex && m.args.prevIndex + 1 == node.nextIndex[m.to]
       && m.stamp == r.states[k].order.builds
  }

  /** Only SendAppend puts a new append in flight. */
  lemma AppendStep(c: Config, s: Cluster, step: Step, m: Append)
    requires TypeOk(c, s) && Enabled(c, s, step)
    requires m in Apply(c, s, step).net.appends && m !in s.net.appends
    ensures step == SendAppend(m.args.leader, m.to)
    ensures m.args.leader in s.nodes && m.to in s.nodes[m.args.leader].nextIndex
    ensures var node := s.nodes[m.args.leader];
            && node.role == Leader && node.log == m.built
            && m.args == BuildAppend(node, m.args.leader, m.to) && m.stamp == s.order.builds
  {
    match step
    case SendAppend(n, peer) =>
      assert KnowsPeers(c, n, s.nodes[n]);
    case _ =>
  }

  lemma {:induction false} BuiltWitness(c: Config, r: Run, i: nat, m: Append) returns (k: nat)
    requires IsRun(c, r) && i <= |r.steps| && m in r.states[i].net.appends
    ensures k < i && BuiltAt(r, k, m)
  {
    k := i;
    if i > 0 {
      var s, step := r.states[i - 1], r.steps[i - 1];
      if m in s.net.appends {
        k := BuiltWitness(c, r, i - 1, m);
      } else {
        k := i - 1;
        AppendStep(c, s, step, m);
      }
    }
  }

  /** In step j a leader of the given term took the given data as entry k of its log. */
  predicate SubmittedAt(r: Run, j: nat, term: nat, k: nat, data: Data) {
    && j < |r.steps| && j < |r.states| && r.steps[j].Submit? && r.steps[j].data == data
    && r.steps[j].node in r.states[j].nodes
    && var node := r.states[j].nodes[r.steps[j].node];
       node.role == Leader && node.currentTerm == term && |node.log| == k
  }

  /** A step that lengthens a reign's log is a submission to its leader. */
  lemma ReignStep(c: Config, s: Cluster, step: Step, t: nat, k: nat)
    requires Inv(c, s) && Enabled(c, s, step)
    requires var h' := Apply(c, s, step).history;
             t in h'.reigns && |h'.reigns[t].start| <= k < |h'.reigns[t].log|
    ensures && t in s.history.reigns
            && Apply(c, s, step).history.reigns[t].start == s.history.reigns[t].start
            && (k < |s.history.reigns[t].log| ==>
                  Apply(c, s, step).history.reigns[t].log[k] == s.history.reigns[t].log[k])
            && (k >= |s.history.reigns[t].log| ==>
                  && step.Submit? && step.node in s.nodes && s.nodes[step.node].currentTerm == t
                  && |s.nodes[step.node].log| == k
                  && step.data == Apply(c, s, step).history.reigns[t].log[k].data)
  {
    match step
    case Submit(n, data) =>
      assert NodeInv(s.history, n, s.nodes[n]);
    case _ =>
  }

  lemma {:induction false} SubmissionWitness(c: Config, r: Run, i: nat, t: nat, k: nat) returns (j: nat)
    requires IsRun(c, r) && i <= |r.steps| && t in r.states[i].history.reigns
    requires |r.states[i].history.reigns[t].start| <= k < |r.states[i].history.reigns[t].log|
    ensures j < i && SubmittedAt(r, j, t, k, r.states[i].history.reigns[t].log[k].data)
  {
    j := i;
    if i > 0 {
      var s, step := r.states[i - 1], r.steps[i - 1];
      RunInv(c, r, i - 1);
      ReignStep(c, s, step, t, k);
      if k < |s.history.reigns[t].log| {
        j := SubmissionWitness(c, r, i - 1, t, k);
      } else {
        j := i - 1;
      }
    }
  }

  /** Nothing is invented: every entry of every log was submitted to the leader of its
      term, as the entry with that index. */
  lemma EntriesWereSubmitted(c: Config, r: Run, i: nat, n: NodeId, k: nat) returns (j: nat)
    requires IsRun(c, r) && i <= |r.steps| && n in r.states[i].nodes && k < |r.states[i].nodes[n].log|
    ensures var e := r.states[i].nodes[n].log[k]; j < i && SubmittedAt(r, j, e.term, k, e.data)
  {
    var h, log := r.states[i].history, r.states[i].nodes[n].log;
    var t := log[k].term;
    RunInv(c, r, i);
    assert NodeInv(h, n, r.states[i].nodes[n]);
    assert EntryBacked(h, log, k);
    assert log[..k + 1][k] == h.reigns[t].log[k];
    assert ReignInv(c, h, t);
    assert CampaignInv(c, h, Seat(h.reigns[t].leader, t));
    j := SubmissionWitness(c, r, i, t, k);
  }

  // ----------------------------------------------- candidate and leader stability

  /** What one step may do to any node's term, vote and log. */
  ghost predicate Advances(node: Node, node': Node) {
    && node.currentTerm <= node'.currentTerm
    && (node.currentTerm == node'.currentTerm && node.votedFor != None ==> node'.votedFor == node.votedFor)
  }

  lemma StepAdvances(c: Config, s: Cluster, step: Step, n: NodeId)
    requires TypeOk(c, s) && Enabled(c, s, step) && n in s.nodes
    ensures n in Apply(c, s, step).nodes && Advances(s.nodes[n], Apply(c, s, step).nodes[n])
  {
    if step.HandleAppend? && step.append.to == n {
      HandleAppendFields(s.nodes[n], step.append.args);
    }
    if step.ReceiveAppendReply? && step.appendReply.append.args.leader == n {
      var rep := step.appendReply;
      assert KnowsPeers(c, n, s.nodes[n]);
      CommitFields(RecordAck(s.nodes[n], rep.append.to, EndIndex(rep.append.args)), |c.members|);
    }
  }

  /** Terms never fall, and within one term a vote, once cast, is never changed. */
  lemma {:induction false} TermsAndVotes(c: Config, r: Run, i: nat, j: nat, n: NodeId)
    requires IsRun(c, r) && i <= j <= |r.steps| && n in r.states[i].nodes
    ensures n in r.states[j].nodes && Advances(r.states[i].nodes[n], r.states[j].nodes[n])
    decreases j
  {
    if i < j {
      TermsAndVotes(c, r, i, j - 1, n);
      var step := r.steps[j - 1];
      StepAdvances(c, r.states[j - 1], step, n);
    }
  }

  /** A leader only appends: within one term its later log extends its earlier one. */
  lemma LeaderAppendOnly(c: Config, r: Run, i: nat, j: nat, n: NodeId)
    requires IsRun(c, r) && i <= j <= |r.steps| && n in c.Nodes()
    requires n in r.states[i].nodes && n in r.states[j].nodes
    requires r.states[i].nodes[n].role == Leader && r.states[j].nodes[n].role == Leader
    requires r.states[i].nodes[n].currentTerm == r.states[j].nodes[n].currentTerm
    ensures r.states[i].nodes[n].log <= r.states[j].nodes[n].log
  {
    Present(c, r, i, n);
    Present(c, r, j, n);
    RunExtends(c, r, i, j);
    assert ReignGrows(r.states[i].history.reigns[r.states[i].nodes[n].currentTerm],
                      r.states[j].history.reigns[r.states[i].nodes[n].currentTerm]);
  }

  /** A node that is still a candidate has the log its vote requests advertised. */
  lemma CandidateStable(c: Config, r: Run, i: nat, n: NodeId, req: VoteRequest)
    requires IsRun(c, r) && i <= |r.steps| && n in c.Nodes() && n in r.states[i].nodes
    requires r.states[i].nodes[n].role == Candidate
    requires req in r.states[i].net.voteRequests
    requires req.candidate == n && req.term == r.states[i].nodes[n].currentTerm
    ensures req.lastIndex == LastIndex(r.states[i].nodes[n].log)
    ensures req.lastTerm == LastTerm(r.states[i].nodes[n].log)
  {
    Present(c, r, i, n);
    RunInv(c, r, i);
    assert VoteRequestInv(r.states[i].history, req);
  }

  /** A node that campaigned in a term and is still (or again) found as a candidate in
      it has the same log. */
  lemma CandidateLogKept(c: Config, r: Run, i: nat, j: nat, n: NodeId)
    requires IsRun(c, r) && i <= j <= |r.steps| && n in c.Nodes()
    requires n in r.states[i].nodes && n in r.states[j].nodes
    requires r.states[i].nodes[n].role == Candidate && r.states[j].nodes[n].role == Candidate
    requires r.states[i].nodes[n].currentTerm == r.states[j].nodes[n].currentTerm
    ensures r.states[i].nodes[n].log == r.states[j].nodes[n].log
  {
    Present(c, r, i, n);
    Present(c, r, j, n);
    RunExtends(c, r, i, j);
  }

  /** An entry a leader took stays where it was put for as long as that node leads. */
  lemma SubmissionSurvives(c: Config, r: Run, i: nat, j: nat, n: NodeId, data: Data)
    requires IsRun(c, r) && i < j <= |r.steps| && r.steps[i] == Submit(n, data)
    requires n in r.states[i].nodes && r.states[i].nodes[n].role == Leader
    requires n in r.states[j].nodes && r.states[j].nodes[n].role == Leader
    requires r.states[j].nodes[n].currentTerm == r.states[i].nodes[n].currentTerm
    ensures var k, node := |r.states[i].nodes[n].log|, r.states[j].nodes[n];
            k < |node.log| && node.log[k] == Entry(node.currentTerm, data)
  {
    RunStep(c, r, i);
    LeaderAppendOnly(c, r, i + 1, j, n);
  }

  // ------------------------------------------------------ hints and electability

  /** In state k node l led a term that is not later than the given one. */
  predicate LedBy(r: Run, k: nat, l: NodeId, term: nat) {
    k < |r.states| && l in r.states[k].nodes
    && r.states[k].nodes[l].role == Leader && r.states[k].nodes[l].currentTerm <= term
  }

  /** What one step does to a node's leader hint. */
  lemma HintStep(c: Config, s: Cluster, step: Step, n: NodeId)
    requires TypeOk(c, s) && Enabled(c, s, step) && n in s.nodes
    ensures n in Apply(c, s, step).nodes
    ensures var node, node' := s.nodes[n], Apply(c, s, step).nodes[n];
            && node.currentTerm <= node'.currentTerm
            && (node'.leaderId == node.leaderId
                || (node'.role == Leader && node'.leaderId == Some(n))
                || (step.HandleAppend? && node'.leaderId == Some(step.append.args.leader)
                    && node'.currentTerm == step.append.args.term))
            && (node'.role == Leader ==>
                  node'.leaderId == Some(n) || (node.role == Leader && node'.leaderId == node.leaderId))
  {
    StepAdvances(c, s, step, n);
    match step
    case HandleAppend(m) =>
      if m.to == n {
        HandleAppendFields(s.nodes[n], m.args);
        AppendHint(s.nodes[n], m.args);
      }
    case ReceiveAppendReply(rep) =>
      if rep.append.args.leader == n {
        assert KnowsPeers(c, n, s.nodes[n]);
        CommitFields(RecordAck(s.nodes[n], rep.append.to, EndIndex(rep.append.args)), |c.members|);
      }
    case _ =>
  }

  lemma AppendHint(n: Node, a: AppendArgs)
    ensures HandleAppendEntries(n, a).leaderId == if a.term >= n.currentTerm then Some(a.leader) else n.leaderId
  {
  }

  /** The node that a non-leader names to a client, and a leader's name for itself: the
      named node really led, in a term that is not later than the node's own. */
  lemma {:induction false} LeaderHint(c: Config, r: Run, i: nat, n: NodeId) returns (k: nat)
    requires IsRun(c, r) && i <= |r.steps| && n in r.states[i].nodes
    ensures var node := r.states[i].nodes[n];
            && (node.role == Leader ==> node.leaderId == Some(n))
            && (node.leaderId.Some? ==> k <= i && LedBy(r, k, node.leaderId.value, node.currentTerm))
  {
    k := i;
    if i > 0 {
      var s, step := r.states[i - 1], r.steps[i - 1];
      var node' := r.states[i].nodes[n];
      RunInv(c, r, i);
      RunStep(c, r, i - 1);
      assert n in s.nodes;
      k := LeaderHint(c, r, i - 1, n);
      HintStep(c, s, step, n);
      if node'.role == Leader && node'.leaderId == Some(n) {
        k := i;
      } else if node'.leaderId != s.nodes[n].leaderId {
        k := BuiltWitness(c, r, i - 1, step.append);
      }
    }
  }

  /** The vote of every node in a set goes to the given one. */
  ghost predicate ElectableIn(nodes: map<NodeId, Node>, group: set<NodeId>, n: NodeId, term: nat) {
    n in nodes && forall v :: v in group && v in nodes && v != n ==>
      GrantsVote(nodes[v], term, n, LastIndex(nodes[n].log), LastTerm(nodes[n].log))
  }

  /** A node can still vote in the term. */
  predicate CanVoteIn(node: Node, term: nat) {
    node.currentTerm < term || (node.currentTerm == term && node.votedFor == None)
  }

  /** The vote check never blocks an election: in any non-empty group of nodes that can
      still vote in a term there is one to which all the others grant their vote. */
  lemma {:induction false} SomeoneIsElectable(nodes: map<NodeId, Node>, group: set<NodeId>, term: nat) returns (n: NodeId)
    requires group != {} && group <= nodes.Keys
    requires forall v :: v in group ==> CanVoteIn(nodes[v], term)
    ensures n in group && ElectableIn(nodes, group, n, term)
  {
    var v :| v in group;
    var rest := group - {v};
    assert group == rest + {v};
    n := v;
    if rest != {} {
      var last := SomeoneIsElectable(nodes, rest, term);
      n := last;
      if !UpToDate(LastTerm(nodes[last].log), LastIndex(nodes[last].log), nodes[v].log) {
        n := v;
      }
      forall u | u in group && u in nodes && u != n
        ensures GrantsVote(nodes[u], term, n, LastIndex(nodes[n].log), LastTerm(nodes[n].log))
      {
        assert CanVoteIn(nodes[u], term);
        assert u in rest && u != last ==>
          GrantsVote(nodes[u], term, last, LastIndex(nodes[last].log), LastTerm(nodes[last].log));
      }
    }
  }

  // ------------------------------------- properties that need appends in order

  /** State Machine Safety: what any two nodes have applied, at any two moments, is
      prefix-comparable. */
  lemma StateMachineSafety(c: Config, r: Run, i: nat, j: nat, a: NodeId, b: NodeId)
    requires IsRun(c, r) && InOrder(r) && i <= |r.steps| && j <= |r.steps|
    requires a in r.states[i].nodes && b in r.states[j].nodes
    ensures Comparable(r.states[i].nodes[a].stateMachine, r.states[j].nodes[b].stateMachine)
  {
    var last := |r.steps|;
    var h := r.states[last].history;
    var x, y := r.states[i].nodes[a], r.states[j].nodes[b];
    AppliedInRun(c, r, i, a);
    AppliedInRun(c, r, j, b);
    RunSafety(c, r, last);
    var p, q := x.log[..x.commitIndex + 1], y.log[..y.commitIndex + 1];
    SafePrefixesComparable(c, h, x.currentTerm, p, y.currentTerm, q);
    PayloadsComparable(p, q);
  }

  lemma PayloadsComparable(p: Log, q: Log)
    requires Comparable(p, q)
    ensures Comparable(Payloads(p), Payloads(q))
  {
    if p <= q {
      PayloadsPrefix(p, q);
    } else {
      PayloadsPrefix(q, p);
    }
  }

  lemma PayloadsPrefix(p: Log, q: Log)
    requires p <= q
    ensures Payloads(p) <= Payloads(q)
  {
  }

  /** Applied state mirrors the log, and is a committed prefix of it. */
  lemma AppliedInRun(c: Config, r: Run, i: nat, n: NodeId)
    requires IsRun(c, r) && InOrder(r) && i <= |r.steps| && n in r.states[i].nodes
    ensures var node := r.states[i].nodes[n];
            && node.lastApplied == node.commitIndex < |node.log|
            && node.stateMachine == Payloads(node.log[..node.commitIndex + 1])
            && SafePrefix(c, r.states[|r.steps|].history, node.currentTerm, node.log[..node.commitIndex + 1])
  {
    var s, node := r.states[i], r.states[i].nodes[n];
    RunSafety(c, r, i);
    assert AppliedInv(c, s.history, node);
    RunExtends(c, r, i, |r.steps|);
    SafePrefixMono(c, s.history, r.states[|r.steps|].history, node.currentTerm, node.currentTerm,
                   node.log[..node.commitIndex + 1]);
  }

  /** The commit index has not fallen and nothing committed has been cut off. */
  ghost predicate CommitGrows(node: Node, node': Node) {
    && node.commitIndex <= node'.commitIndex
    && node.commitIndex < |node.log|
    && node.log[..node.commitIndex + 1] <= node'.log
  }

  lemma StepCommitGrows(c: Config, s: Cluster, step: Step, n: NodeId)
    requires c.Valid() && Inv(c, s) && SafetyInv(c, s) && Enabled(c, s, step) && n in s.nodes
    requires step.HandleAppend? ==> NotOvertaken(s, step.append)
    ensures n in Apply(c, s, step).nodes && CommitGrows(s.nodes[n], Apply(c, s, step).nodes[n])
  {
    var h, node := s.history, s.nodes[n];
    assert AppliedInv(c, h, node) && NodeInv(h, n, node) && KnowsPeers(c, n, node);
    if step.HandleAppend? && step.append.to == n {
      assert AppendInv(c, h, step.append) && CarriedCommit(c, h, step.append);
      AppendShares(c, h, node, step.append);
      HandleAppendCommitGrows(node, step.append, HandleAppendEntries(node, step.append.args));
    } else if step.ReceiveAppendReply? && step.appendReply.append.args.leader == n {
      ReplyCommitGrows(node, step.appendReply, |c.members|);
    } else {
      OthersLeaveCommit(c, s, step, n);
      CommitStays(node, Apply(c, s, step).nodes[n]);
    }
  }

  /** Only an append, or a leader's reaction to an answer, touches the commit index. */
  lemma OthersLeaveCommit(c: Config, s: Cluster, step: Step, n: NodeId)
    requires TypeOk(c, s) && Enabled(c, s, step) && n in s.nodes
    requires !(step.HandleAppend? && step.append.to == n)
    requires !(step.ReceiveAppendReply? && step.appendReply.append.args.leader == n)
    ensures n in Apply(c, s, step).nodes
    ensures var node, node' := s.nodes[n], Apply(c, s, step).nodes[n];
            node'.commitIndex == node.commitIndex && node.log <= node'.log
  {
  }

  lemma CommitStays(node: Node, node': Node)
    requires node.commitIndex < |node.log| && node'.commitIndex == node.commitIndex && node.log <= node'.log
    ensures CommitGrows(node, node')
  {
  }

  lemma ReplyCommitGrows(node: Node, rep: AppendReply, size: nat)
    requires node.commitIndex < |node.log| && rep.append.to in node.nextIndex
    ensures CommitGrows(node, HandleAppendReply(node, rep.append.to, rep.append.args, rep.term, rep.success, size))
  {
    ReplyFields(node, rep, size);
    CommitFields(RecordAck(node, rep.append.to, EndIndex(rep.append.args)), size);
  }

  lemma HandleAppendCommitGrows(node: Node, m: Append, node': Node)
    requires Shares(node, m) && m.args.leaderCommit < |m.built| && node' == HandleAppendEntries(node, m.args)
    ensures CommitGrows(node, node')
  {
    HandleAppendFields(node, m.args);
    CommitFollows(node, m, node');
  }

  /** An append moves the commit index up to the leader's, if it succeeds. */
  lemma CommitFollows(node: Node, m: Append, node': Node)
    requires AppendSucceeds(node, m.args) ==> m.built <= NewLog(node, m.args)
    requires m.args.leaderCommit < |m.built| && node' == HandleAppendEntries(node, m.args)
    ensures node'.commitIndex ==
            if AppendSucceeds(node, m.args) then Max(node.commitIndex, m.args.leaderCommit) else node.commitIndex
  {
    HandleAppendCommit(node, m.args);
    HandleAppendFields(node, m.args);
  }

  /** What an append does to the commit index. */
  lemma HandleAppendCommit(n: Node, a: AppendArgs)
    ensures var n' := HandleAppendEntries(n, a);
            n'.commitIndex == if AppendSucceeds(n, a) && a.leaderCommit > n.commitIndex
                              then Min(a.leaderCommit, LastIndex(n'.log)) else n.commitIndex
  {
  }

  lemma CommitGrowsTrans(x: Node, y: Node, z: Node)
    requires CommitGrows(x, y) && CommitGrows(y, z) && y.commitIndex < |y.log|
    ensures CommitGrows(x, z)
  {
    assert x.log[..x.commitIndex + 1] <= y.log[..y.commitIndex + 1];
  }

  lemma {:induction false} CommitGrowsInRun(c: Config, r: Run, i: nat, j: nat, n: NodeId)
    requires IsRun(c, r) && InOrder(r) && i <= j <= |r.steps| && n in r.states[i].nodes
    ensures n in r.states[j].nodes && CommitGrows(r.states[i].nodes[n], r.states[j].nodes[n])
    decreases j
  {
    if i < j {
      CommitGrowsInRun(c, r, i, j - 1, n);
      RunSafety(c, r, j - 1);
      AppliedInRun(c, r, j - 1, n);
      RunStep(c, r, j - 1);
      assert r.steps[j - 1].HandleAppend? ==> NotOvertaken(r.states[j - 1], r.steps[j - 1].append);
      StepCommitGrows(c, r.states[j - 1], r.steps[j - 1], n);
      CommitGrowsTrans(r.states[i].nodes[n], r.states[j - 1].nodes[n], r.states[j].nodes[n]);
    } else {
      AppliedInRun(c, r, i, n);
    }
  }

  /** Commit indexes never fall, applied state only grows at the end, and no truncation
      reaches a committed entry. */
  lemma CommitMonotone(c: Config, r: Run, i: nat, j: nat, n: NodeId)
    requires IsRun(c, r) && InOrder(r) && i <= j <= |r.steps| && n in r.states[i].nodes
    ensures n in r.states[j].nodes && CommitGrows(r.states[i].nodes[n], r.states[j].nodes[n])
    ensures r.states[i].nodes[n].stateMachine <= r.states[j].nodes[n].stateMachine
  {
    CommitGrowsInRun(c, r, i, j, n);
    AppliedInRun(c, r, i, n);
    AppliedInRun(c, r, j, n);
    var x, y := r.states[i].nodes[n], r.states[j].nodes[n];
    PayloadsPrefix(x.log[..x.commitIndex + 1], y.log[..y.commitIndex + 1]);
  }

  /** A client's entry is permanent once its leader has committed it: whoever applies
      that position, at any moment, applies the submitted data. */
  lemma SubmissionIsPermanent(c: Config, r: Run, i: nat, j: nat, n: NodeId, data: Data, l: nat, b: NodeId)
    requires IsRun(c, r) && InOrder(r) && i < j <= |r.steps| && r.steps[i] == Submit(n, data)
    requires n in r.states[i].nodes && r.states[i].nodes[n].role == Leader
    requires n in r.states[j].nodes && r.states[j].nodes[n].role == Leader
    requires r.states[j].nodes[n].currentTerm == r.states[i].nodes[n].currentTerm
    requires r.states[j].nodes[n].commitIndex >= |r.states[i].nodes[n].log|
    requires l <= |r.steps| && b in r.states[l].nodes
    requires r.states[l].nodes[b].commitIndex >= |r.states[i].nodes[n].log|
    ensures var k, applied := |r.states[i].nodes[n].log|, r.states[l].nodes[b].stateMachine;
            k < |applied| && applied[k] == data
  {
    SubmissionSurvives(c, r, i, j, n, data);
    AppliedInRun(c, r, j, n);
    AppliedInRun(c, r, l, b);
    StateMachineSafety(c, r, j, l, n, b);
    SharedItem(r.states[j].nodes[n].stateMachine, r.states[l].nodes[b].stateMachine, |r.states[i].nodes[n].log|);
  }

  lemma SharedItem<T>(a: seq<T>, b: seq<T>, k: nat)
    requires Comparable(a, b) && k < |a| && k < |b|
    ensures a[k] == b[k]
  {
  }

  /** A leader moved its commit index by the majority count, and nothing else. */
  ghost predicate CommitsTo(c: Config, h: History, node: Node, node': Node) {
    && node'.currentTerm == node.currentTerm && node'.log == node.log
    && node'.commitIndex < |node'.log|
    && Committed(c, h, node.currentTerm, node'.commitIndex + 1)
  }

  lemma SearchCommits(c: Config, h: History, n: NodeId, node: Node, node': Node)
    requires LeaderInv(h, n, node) && KnowsPeers(c, n, node) && n in c.Nodes()
    requires node' == UpdateCommitIndex(node, |c.members|) && node'.commitIndex != node.commitIndex
    ensures CommitsTo(c, h, node, node')
  {
    var target := CommitTarget(node, |c.members|, LastIndex(node.log));
    assert target == node'.commitIndex;
    CommittableIsCommitted(c, h, n, node, target);
  }

  /** A counted acknowledgement that raises the commit index commits. */
  lemma ReplyCommits(c: Config, h: History, n: NodeId, node: Node, rep: AppendReply, node': Node)
    requires CreditSound(h, n, node, rep)
    requires KnowsPeers(c, n, node) && n in c.Nodes() && rep.append.to in Peers(c, n)
    requires node' == HandleAppendReply(node, rep.append.to, rep.append.args, rep.term, rep.success, |c.members|)
    requires node.commitIndex < node'.commitIndex
    ensures CommitsTo(c, h, node, node')
  {
    ReplyFields(node, rep, |c.members|);
    assert KnowsPeers(c, n, Credited(node, rep));
    SearchCommits(c, h, n, Credited(node, rep), node');
  }

  /** Only the answer to one of its own appends makes a leader, still leading, commit. */
  lemma OnlyAnswersCommit(c: Config, s: Cluster, step: Step, n: NodeId)
    requires TypeOk(c, s) && Enabled(c, s, step) && n in s.nodes && s.nodes[n].role == Leader
    requires n in Apply(c, s, step).nodes && s.nodes[n].commitIndex < Apply(c, s, step).nodes[n].commitIndex
    requires Apply(c, s, step).nodes[n].role == Leader
    ensures step.ReceiveAppendReply? && step.appendReply.append.args.leader == n
  {
    if step.HandleAppend? {
      HandleAppendFields(s.nodes[step.append.to], step.append.args);
    }
  }

  /** A leader raises its commit index only by the majority count, which commits. */
  lemma CommitIsCommitted(c: Config, s: Cluster, step: Step, n: NodeId, node': Node)
    requires Inv(c, s) && Enabled(c, s, step) && n in s.nodes && s.nodes[n].role == Leader
    requires n in Apply(c, s, step).nodes && Apply(c, s, step).nodes[n] == node'
    requires s.nodes[n].commitIndex < node'.commitIndex && node'.role == Leader
    ensures CommitsTo(c, s.history, s.nodes[n], node')
  {
    assert NodeInv(s.history, n, s.nodes[n]) && KnowsPeers(c, n, s.nodes[n]);
    OnlyAnswersCommit(c, s, step, n);
    assert AppendReplyInv(c, s.history, step.appendReply);
    CreditIsSound(c, s.history, n, s.nodes[n], step.appendReply);
    ReplyCommits(c, s.history, n, s.nodes[n], step.appendReply, node');
  }

  lemma CommitAtStep(c: Config, r: Run, i: nat, n: NodeId)
    requires IsRun(c, r) && i < |r.steps|
    requires n in r.states[i].nodes && n in r.states[i + 1].nodes
    requires r.states[i].nodes[n].role == Leader && r.states[i + 1].nodes[n].role == Leader
    requires r.states[i].nodes[n].commitIndex < r.states[i + 1].nodes[n].commitIndex
    ensures CommitsTo(c, r.states[i].history, r.states[i].nodes[n], r.states[i + 1].nodes[n])
  {
    RunInv(c, r, i);
    RunStep(c, r, i);
    CommitIsCommitted(c, r.states[i], r.steps[i], n, r.states[i + 1].nodes[n]);
  }

  /** At some moment up to state i, in the given term, node p had a log that starts with
      the given prefix. */
  ghost predicate HeldBy(r: Run, i: nat, p: NodeId, term: nat, prefix: Log) {
    exists k: nat, log: Log {:trigger HadLog(r, k, p, term, log)} ::
      k <= i && HadLog(r, k, p, term, log) && prefix <= log
  }

  /** A leader's commit index rises only to an entry of its own term for which there is
      a majority of nodes, each of which had, at some moment of that term, the whole log
      up to that entry. */
  lemma CommitHasMajority(c: Config, r: Run, i: nat, n: NodeId) returns (holders: set<NodeId>)
    requires IsRun(c, r) && i < |r.steps|
    requires n in r.states[i].nodes && n in r.states[i + 1].nodes
    requires r.states[i].nodes[n].role == Leader && r.states[i + 1].nodes[n].role == Leader
    requires r.states[i].nodes[n].commitIndex < r.states[i + 1].nodes[n].commitIndex
    ensures var node' := r.states[i + 1].nodes[n];
            && node'.commitIndex < |node'.log| && node'.log[node'.commitIndex].term == node'.currentTerm
            && holders <= c.Nodes() && c.Majority(holders)
            && forall p :: p in holders ==>
                 HeldBy(r, i, p, node'.currentTerm, node'.log[..node'.commitIndex + 1])
  {
    var h, t, node' := r.states[i].history, r.states[i].nodes[n].currentTerm, r.states[i + 1].nodes[n];
    var k := node'.commitIndex + 1;
    CommitAtStep(c, r, i, n);
    RunStep(c, r, i);
    Present(c, r, i, n);
    holders := MajorityIsReal(c, r, i, t, k);
  }

  lemma MajorityIsReal(c: Config, r: Run, i: nat, t: nat, k: nat) returns (holders: set<NodeId>)
    requires IsRun(c, r) && i <= |r.steps| && Committed(c, r.states[i].history, t, k)
    ensures holders <= c.Nodes() && c.Majority(holders)
    ensures forall p :: p in holders ==> HeldBy(r, i, p, t, r.states[i].history.reigns[t].log[..k])
  {
    holders := AckSet(c, r.states[i].history, t, k);
    forall p | p in holders
      ensures HeldBy(r, i, p, t, r.states[i].history.reigns[t].log[..k])
    {
      AckIsReal(c, r, i, p, t, k);
    }
  }

  lemma AckIsReal(c: Config, r: Run, i: nat, p: NodeId, t: nat, k: nat)
    requires IsRun(c, r) && i <= |r.steps| && p in c.Nodes() && t in r.states[i].history.reigns
    requires 0 < k <= |r.states[i].history.reigns[t].log| && Acked(r.states[i].history, p, t, k)
    ensures HeldBy(r, i, p, t, r.states[i].history.reigns[t].log[..k])
  {
    var h := r.states[i].history;
    RunInv(c, r, i);
    assert AcceptedInv(c, h, Seat(p, t));
    var w := AcceptedWitness(c, r, i, p, t);
  }

  /** A leader's commit, through the history of the whole run. */
  lemma CommitInRun(c: Config, r: Run, i: nat, n: NodeId)
    requires IsRun(c, r) && i < |r.steps|
    requires n in r.states[i].nodes && n in r.states[i + 1].nodes
    requires r.states[i].nodes[n].role == Leader && r.states[i + 1].nodes[n].role == Leader
    requires r.states[i].nodes[n].commitIndex < r.states[i + 1].nodes[n].commitIndex
    ensures var h, node, node' := r.states[|r.steps|].history, r.states[i].nodes[n], r.states[i + 1].nodes[n];
            && node'.commitIndex < |node'.log|
            && Committed(c, h, node.currentTerm, node'.commitIndex + 1)
            && node'.log[..node'.commitIndex + 1] == h.reigns[node.currentTerm].log[..node'.commitIndex + 1]
  {
    var h, last := r.states[|r.steps|].history, |r.steps|;
    var node, node' := r.states[i].nodes[n], r.states[i + 1].nodes[n];
    CommitAtStep(c, r, i, n);
    RunExtends(c, r, i, last);
    CommittedMono(c, r.states[i].history, h, node.currentTerm, node'.commitIndex + 1);
    RunInv(c, r, i);
    LeaderInRun(c, r, i, n);
  }

  /** Leader Completeness: what a leader commits by its majority count in term T is at
      the same place in the log of every leader of a later term, at any moment. */
  lemma LeaderCompleteness(c: Config, r: Run, i: nat, n: NodeId, j: nat, l: NodeId)
    requires IsRun(c, r) && InOrder(r) && i < |r.steps| && j <= |r.steps|
    requires n in r.states[i].nodes && n in r.states[i + 1].nodes && l in r.states[j].nodes
    requires r.states[i].nodes[n].role == Leader && r.states[i + 1].nodes[n].role == Leader
    requires r.states[i].nodes[n].commitIndex < r.states[i + 1].nodes[n].commitIndex
    requires r.states[j].nodes[l].role == Leader
    requires r.states[j].nodes[l].currentTerm > r.states[i].nodes[n].currentTerm
    ensures CommitShared(r.states[i + 1].nodes[n], r.states[j].nodes[l].log)
  {
    var h, t, u := r.states[|r.steps|].history, r.states[i].nodes[n].currentTerm, r.states[j].nodes[l].currentTerm;
    CommitInRun(c, r, i, n);
    RunSafety(c, r, |r.steps|);
    RunInv(c, r, j);
    LeaderInRun(c, r, j, l);
    LaterLeaderHolds(c, h, t, r.states[i + 1].nodes[n].commitIndex + 1, u);
    PrefixTrans(h.reigns[t].log[..r.states[i + 1].nodes[n].commitIndex + 1], h.reigns[u].start, r.states[j].nodes[l].log);
  }

  lemma PrefixTrans(a: Log, b: Log, d: Log)
    requires a <= b <= d
    ensures a <= d
  {
  }

  /** What an accepted append does, in terms of the log recorded with it. */
  lemma AcceptedAppend(node: Node, m: Append, node': Node)
    requires AppendSucceeds(node, m.args) && node' == HandleAppendEntries(node, m.args)
    requires m.built <= NewLog(node, m.args) && m.args.leaderCommit < |m.built|
    ensures node'.log == NewLog(node, m.args)
    ensures node'.commitIndex == Max(node.commitIndex, m.args.leaderCommit)
    ensures m.args.leaderCommit > node.commitIndex ==> CommitShared(node', m.built)
  {
    HandleAppendFields(node, m.args);
    CommitFollows(node, m, node');
  }

  /** Everything a node has committed is also in the given log. */
  ghost predicate CommitShared(node: Node, log: Log) {
    node.commitIndex < |node.log| && node.log[..node.commitIndex + 1] <= log
  }

  /** Follower commit is sound: an accepted append with entries makes the follower's log
      the leader's log at the moment it was built, every append covers its leader's
      commit index, and accepting one commits exactly up to that index, all of it shared
      with the leader. */
  lemma FollowerCommitSound(c: Config, r: Run, i: nat, m: Append) returns (k: nat)
    requires IsRun(c, r) && InOrder(r) && i < |r.steps| && r.steps[i] == HandleAppend(m)
    requires m.to in r.states[i].nodes && AppendSucceeds(r.states[i].nodes[m.to], m.args)
    ensures m.to in r.states[i + 1].nodes && k < i && BuiltAt(r, k, m)
    ensures var node, node', built := r.states[i].nodes[m.to], r.states[i + 1].nodes[m.to],
                                      r.states[k].nodes[m.args.leader].log;
            && m.args.leaderCommit <= EndIndex(m.args)
            && (m.args.entries != [] ==> node'.log == built)
            && (m.args.entries == [] ==> node'.log == node.log && built <= node'.log)
            && node'.commitIndex == Max(node.commitIndex, m.args.leaderCommit)
            && (m.args.leaderCommit > node.commitIndex ==> CommitShared(node', built))
  {
    var s := r.states[i];
    var node := s.nodes[m.to];
    k := BuiltWitness(c, r, i, m);
    RunSafety(c, r, i);
    assert NodeInv(s.history, m.to, node) && AppliedInv(c, s.history, node);
    assert AppendInv(c, s.history, m) && CarriedCommit(c, s.history, m);
    BuiltLog(c, s.history, m);
    AppendEffect(c, s.history, m, node.log);
    AcceptedAppend(node, m, HandleAppendEntries(node, m.args));
    RunStep(c, r, i);
  }
}
