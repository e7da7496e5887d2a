/** What each message does, on every run and with no assumption on the network: when a
    vote is given, when a term or a role changes, what becomes of a log, and what a
    leader learns from an answer. */
module RaftLaws {
  import opened Common
  import opened RaftNode
  import opened RaftCluster
  import opened RaftInvariant
  import opened RaftPreservation
  import opened RaftSafetyPreservation
  import opened RaftTheorems

  /** The run takes the given step from a state in which the node is present. */
  ghost predicate Takes(c: Config, r: Run, i: nat, step: Step, n: NodeId) {
    && IsRun(c, r) && i < |r.steps| && r.steps[i] == step && n in r.states[i].nodes
  }

  lemma Around(c: Config, r: Run, i: nat, n: NodeId)
    requires IsRun(c, r) && i < |r.steps| && n in r.states[i].nodes
    ensures TypeOk(c, r.states[i]) && Enabled(c, r.states[i], r.steps[i])
    ensures r.states[i + 1] == Apply(c, r.states[i], r.steps[i])
    ensures n in c.Nodes() && n in r.states[i + 1].nodes
    ensures NodeInv(r.states[i].history, n, r.states[i].nodes[n]) && KnowsPeers(c, n, r.states[i].nodes[n])
  {
    RunStep(c, r, i);
    Present(c, r, i, n);
    Present(c, r, i + 1, n);
  }

  /** Every run starts with followers of term 0 that know nothing but their peers. */
  lemma StartLaw(c: Config, r: Run, n: NodeId)
    requires IsRun(c, r) && n in c.Nodes()
    ensures n in r.states[0].nodes
    ensures var node := r.states[0].nodes[n];
            && node.currentTerm == 0 && node.role == Follower && node.votedFor == None && node.leaderId == None
            && node.log == [] && node.commitIndex == -1 && node.lastApplied == -1 && node.stateMachine == []
            && node.nextIndex.Keys == Peers(c, n) && node.matchIndex.Keys == Peers(c, n)
            && forall p :: p in Peers(c, n) ==> node.nextIndex[p] == 0 && node.matchIndex[p] == -1
  {
  }

  // ----------------------------------------------------------------------- votes

  /** The last entry of the request is at least as new as that of the log. */
  predicate AtLeastAsNew(req: VoteRequest, log: Log) {
    var lastTerm := if log == [] then 0 else log[|log| - 1].term;
    req.lastTerm > lastTerm || (req.lastTerm == lastTerm && req.lastIndex + 1 >= |log|)
  }

  /** The node has voted for somebody else in the term, at some moment up to state i. */
  ghost predicate VotedForOther(r: Run, i: nat, p: NodeId, term: nat, candidate: NodeId) {
    exists k: nat, other {:trigger VotedAt(r, k, p, term, other)} ::
      k <= i && other != candidate && VotedAt(r, k, p, term, other)
  }

  /** The votes of the run decide what the vote field says. */
  lemma VoteFieldIsHistory(c: Config, r: Run, i: nat, p: NodeId, term: nat, candidate: NodeId)
    requires IsRun(c, r) && i <= |r.steps| && p in r.states[i].nodes && r.states[i].nodes[p].currentTerm <= term
    ensures VotedForOther(r, i, p, term, candidate) <==>
            var node := r.states[i].nodes[p];
            node.currentTerm == term && node.votedFor.Some? && node.votedFor != Some(candidate)
  {
    var node := r.states[i].nodes[p];
    if VotedForOther(r, i, p, term, candidate) {
      var k: nat, other :| k <= i && other != candidate && VotedAt(r, k, p, term, other);
      TermsAndVotes(c, r, k, i, p);
    }
    if node.currentTerm == term && node.votedFor.Some? && node.votedFor != Some(candidate) {
      assert VotedAt(r, i, p, term, node.votedFor.value);
    }
  }

  /** A vote is given exactly if the request's term is not behind the node's, its last
      entry is at least as new as the node's log, and the node has not voted for another
      candidate in that term at any earlier moment of the run. */
  lemma VoteGivenExactly(c: Config, r: Run, i: nat, req: VoteRequest)
    requires Takes(c, r, i, HandleVoteRequest(req), req.to)
    ensures req.to in r.states[i + 1].nodes
    ensures var s, s', node, node' := r.states[i], r.states[i + 1], r.states[i].nodes[req.to], r.states[i + 1].nodes[req.to];
            var granted := req.term >= node.currentTerm && AtLeastAsNew(req, node.log)
                           && !VotedForOther(r, i, req.to, req.term, req.candidate);
            && s'.net.voteReplies == s.net.voteReplies + {VoteReply(req, node'.currentTerm, granted)}
            && node'.currentTerm == (if req.term > node.currentTerm then req.term else node.currentTerm)
            && (granted ==> VotedAt(r, i + 1, req.to, req.term, req.candidate))
            && (!granted ==> node'.votedFor == if req.term > node.currentTerm then None else node.votedFor)
            && node'.log == node.log
  {
    var node := r.states[i].nodes[req.to];
    Around(c, r, i, req.to);
    if req.term >= node.currentTerm {
      VoteFieldIsHistory(c, r, i, req.to, req.term, req.candidate);
    }
  }

  // ------------------------------------------------------------------------ terms

  /** The step hands the node a message of the given term, which it reads. A leader does
      not read the answer to an append of an earlier term. */
  ghost predicate Reads(s: Cluster, step: Step, n: NodeId, term: nat) {
    match step
    case HandleVoteRequest(req) => req.to == n && req.term == term
    case ReceiveVote(reply) => reply.request.candidate == n && reply.term == term
    case HandleAppend(m) => m.to == n && m.args.term == term
    case ReceiveAppendReply(rep) =>
      && rep.append.args.leader == n && rep.term == term && n in s.nodes
      && s.nodes[n].role == Leader && s.nodes[n].currentTerm == rep.append.args.term
    case _ => false
  }

  ghost predicate MovesTerm(s: Cluster, step: Step, n: NodeId, node: Node, node': Node) {
    && (forall t: nat :: Reads(s, step, n, t) ==>
          && node'.currentTerm == (if t > node.currentTerm then t else node.currentTerm)
          && (t > node.currentTerm ==>
                node'.role == Follower && (node'.votedFor == None || step.HandleVoteRequest?)))
    && (step == Timeout(n) ==>
          node'.currentTerm == node.currentTerm + 1 && node'.role == Candidate && node'.votedFor == Some(n))
    && (step != Timeout(n) && (forall t: nat :: !Reads(s, step, n, t)) ==>
          node'.currentTerm == node.currentTerm && node'.votedFor == node.votedFor)
  }

  /** A node's term is the larger of its own and the one it reads, and grows otherwise
      only by one, when it campaigns. Whoever reads a larger term follows, and has no
      vote in it unless it gives one to the request it has just read. */
  lemma TermLaw(c: Config, r: Run, i: nat, n: NodeId)
    requires IsRun(c, r) && i < |r.steps| && n in r.states[i].nodes
    ensures n in r.states[i + 1].nodes
    ensures MovesTerm(r.states[i], r.steps[i], n, r.states[i].nodes[n], r.states[i + 1].nodes[n])
  {
    Around(c, r, i, n);
    TermStep(c, r.states[i], r.steps[i], n);
  }

  lemma TermStep(c: Config, s: Cluster, step: Step, n: NodeId)
    requires TypeOk(c, s) && Enabled(c, s, step) && n in s.nodes
    ensures n in Apply(c, s, step).nodes
    ensures MovesTerm(s, step, n, s.nodes[n], Apply(c, s, step).nodes[n])
  {
    assert KnowsPeers(c, n, s.nodes[n]);
    match step
    case HandleAppend(m) =>
      assert Reads(s, step, m.to, m.args.term);
      HandleAppendFields(s.nodes[m.to], m.args);
    case ReceiveAppendReply(rep) =>
      if rep.append.args.leader == n {
        assert s.nodes[n].role == Leader && s.nodes[n].currentTerm == rep.append.args.term ==> Reads(s, step, n, rep.term);
        CommitFields(Credited(s.nodes[n], rep), |c.members|);
      }
    case HandleVoteRequest(req) => assert Reads(s, step, req.to, req.term);
    case ReceiveVote(reply) => assert Reads(s, step, reply.request.candidate, reply.term);
    case _ =>
  }

  // ------------------------------------------------------------------------ roles

  /** The step ends an election that the node has won: it is still a candidate in the
      election's term, with more than half of the cluster's votes. */
  ghost predicate WinsBy(c: Config, s: Cluster, step: Step, n: NodeId) {
    && step.FinishElection? && step.seat.node == n && step.seat in s.elections && n in s.nodes
    && s.nodes[n].role == Candidate && s.nodes[n].currentTerm == step.seat.term
    && 2 * s.elections[step.seat].votes > |c.members|
  }

  ghost predicate MovesRole(c: Config, s: Cluster, step: Step, n: NodeId, node: Node, node': Node) {
    && (node'.role == Leader <==>
          WinsBy(c, s, step, n) || (node.role == Leader && node'.currentTerm == node.currentTerm))
    && (WinsBy(c, s, step, n) ==>
          && node'.currentTerm == node.currentTerm && node'.log == node.log && node'.leaderId == Some(n)
          && forall p :: p in Peers(c, n) ==>
               && p in node'.nextIndex && node'.nextIndex[p] == |node.log|
               && p in node'.matchIndex && node'.matchIndex[p] == -1)
    && (step.FinishElection? && !WinsBy(c, s, step, n) ==> node' == node)
  }

  /** A node leads after a step exactly if it won by it, or led before and has not moved
      to another term; a new leader expects its peers to have its whole log and credits
      them with nothing. */
  lemma LeadsExactly(c: Config, r: Run, i: nat, n: NodeId)
    requires IsRun(c, r) && i < |r.steps| && n in r.states[i].nodes
    ensures n in r.states[i + 1].nodes
    ensures MovesRole(c, r.states[i], r.steps[i], n, r.states[i].nodes[n], r.states[i + 1].nodes[n])
  {
    Around(c, r, i, n);
    RunInv(c, r, i);
    RoleStep(c, r.states[i], r.steps[i], n);
  }

  lemma RoleStep(c: Config, s: Cluster, step: Step, n: NodeId)
    requires Inv(c, s) && Enabled(c, s, step) && n in s.nodes
    ensures n in Apply(c, s, step).nodes
    ensures MovesRole(c, s, step, n, s.nodes[n], Apply(c, s, step).nodes[n])
  {
    assert NodeInv(s.history, n, s.nodes[n]) && KnowsPeers(c, n, s.nodes[n]);
    match step
    case HandleAppend(m) =>
      assert AppendInv(c, s.history, m);
      HandleAppendFields(s.nodes[m.to], m.args);
    case ReceiveAppendReply(rep) =>
      if rep.append.args.leader == n {
        CommitFields(Credited(s.nodes[n], rep), |c.members|);
      }
    case _ =>
  }

  /** A campaign that reads an answer counts it exactly if it is a grant and the node is
      still a candidate in the campaign's term; an answer of a larger term ends it. */
  lemma AnswerCountedExactly(c: Config, r: Run, i: nat, reply: VoteReply)
    requires Takes(c, r, i, ReceiveVote(reply), reply.request.candidate)
    ensures var s, s', seat := r.states[i], r.states[i + 1], Seat(reply.request.candidate, reply.request.term);
            && seat in s.elections
            && var node, e := s.nodes[seat.node], s.elections[seat];
               var stands := reply.granted && node.role == Candidate && node.currentTerm == seat.term;
               if reply.term > node.currentTerm then seat !in s'.elections
               else && seat in s'.elections
                    && s'.elections[seat].votes == e.votes + (if stands then 1 else 0)
                    && s'.elections[seat].granted == e.granted + (if stands then {reply.request.to} else {})
  {
    Around(c, r, i, reply.request.candidate);
  }

  // ------------------------------------------------------------- who changes what

  /** The fields that a step leaves alone at a node. */
  ghost predicate LeavesAlone(c: Config, s: Cluster, step: Step, n: NodeId, node: Node, node': Node) {
    var handles := step.HandleAppend? && step.append.to == n;
    var hears := step.ReceiveAppendReply? && step.appendReply.append.args.leader == n;
    && (step.Submit? && step.node == n ==>
          node' == if node.role == Leader then node.(log := node.log + [Entry(node.currentTerm, step.data)]) else node)
    && (!handles && !(step.Submit? && step.node == n) ==> node'.log == node.log)
    && (!handles && !hears ==>
          && node'.commitIndex == node.commitIndex && node'.lastApplied == node.lastApplied
          && node'.stateMachine == node.stateMachine)
    && (!hears && !WinsBy(c, s, step, n) ==>
          node'.nextIndex == node.nextIndex && node'.matchIndex == node.matchIndex)
    && (handles && step.append.args.term >= node.currentTerm ==> node'.leaderId == Some(step.append.args.leader))
    && (!(handles && step.append.args.term >= node.currentTerm) && !WinsBy(c, s, step, n) ==>
          node'.leaderId == node.leaderId)
  }

  /** A log changes only when its node handles an append or, leading, takes a submission
      as its next entry; what is committed and applied only when it handles an append or
      hears an answer; what it knows of its peers only when it wins or hears an answer;
      and the leader it names only when it wins or handles an append of a term that is
      not behind. */
  lemma ChangeLaw(c: Config, r: Run, i: nat, n: NodeId)
    requires IsRun(c, r) && i < |r.steps| && n in r.states[i].nodes
    ensures n in r.states[i + 1].nodes
    ensures LeavesAlone(c, r.states[i], r.steps[i], n, r.states[i].nodes[n], r.states[i + 1].nodes[n])
  {
    Around(c, r, i, n);
    ChangeStep(c, r.states[i], r.steps[i], n);
  }

  lemma ChangeStep(c: Config, s: Cluster, step: Step, n: NodeId)
    requires TypeOk(c, s) && Enabled(c, s, step) && n in s.nodes
    ensures n in Apply(c, s, step).nodes
    ensures LeavesAlone(c, s, step, n, s.nodes[n], Apply(c, s, step).nodes[n])
  {
    assert KnowsPeers(c, n, s.nodes[n]);
    match step
    case HandleAppend(m) =>
      HandleAppendFields(s.nodes[m.to], m.args);
      AppendHint(s.nodes[m.to], m.args);
    case ReceiveAppendReply(rep) =>
      if rep.append.args.leader == n {
        CommitFields(Credited(s.nodes[n], rep), |c.members|);
      }
    case _ =>
  }

  // ------------------------------------------------------------------------- logs

  /** The two logs have the same entries up to the index. */
  ghost predicate AgreeUpTo(a: Log, b: Log, index: int) {
    && index < |a| && index < |b|
    && forall k :: 0 <= k <= index ==> a[k] == b[k]
  }

  /** An append is accepted exactly if its term is not behind and the node's log agrees
      with the sender's log at build time up to the previous entry. Accepted with
      entries, it makes that log the node's; accepted without, it changes nothing.
      Refused for the entries before it, it cuts the node's log at the previous entry,
      which then differs from the sender's, and nowhere else. */
  lemma AppendAcceptedExactly(c: Config, r: Run, i: nat, m: Append)
    requires Takes(c, r, i, HandleAppend(m), m.to)
    ensures m.to in r.states[i + 1].nodes
    ensures var s, s', node, node' := r.states[i], r.states[i + 1], r.states[i].nodes[m.to], r.states[i + 1].nodes[m.to];
            var accepted := m.args.term >= node.currentTerm && AgreeUpTo(node.log, m.built, m.args.prevIndex);
            && s'.net.appendReplies == s.net.appendReplies + {AppendReply(m, node'.currentTerm, accepted)}
            && (m.args.term >= node.currentTerm ==> node'.role == Follower && node'.leaderId == Some(m.args.leader))
            && (m.args.term < node.currentTerm ==> node' == node)
            && (accepted ==> node'.log == if m.args.entries == [] then node.log else m.built)
            && (m.args.term >= node.currentTerm && !accepted ==>
                  && node'.log <= node.log
                  && |node'.log| == Min(|node.log|, m.args.prevIndex)
                  && (m.args.prevIndex < |node.log| ==>
                        && 0 <= m.args.prevIndex < |m.built|
                        && node.log[m.args.prevIndex] != m.built[m.args.prevIndex]))
  {
    var s, node := r.states[i], r.states[i].nodes[m.to];
    Around(c, r, i, m.to);
    RunInv(c, r, i);
    assert AppendInv(c, s.history, m);
    HandleAppendFields(node, m.args);
    AppendHint(node, m.args);
    AcceptsAgreement(c, s.history, m, node.log);
    AppendEffect(c, s.history, m, node.log);
    RefusalCuts(node.log, m.args);
  }

  lemma RefusalCuts(log: Log, a: AppendArgs)
    ensures !AcceptsAppend(log, a.prevIndex, a.prevTerm) ==>
              var log' := LogAfterAppend(log, a.prevIndex, a.prevTerm, a.entries);
              log' <= log && |log'| == Min(|log|, a.prevIndex)
  {
  }

  /** The consistency check compares one term, and so decides whether the logs agree. */
  lemma AcceptsAgreement(c: Config, h: History, m: Append, log: Log)
    requires HistoryInv(c, h) && AppendInv(c, h, m) && Backed(h, log)
    ensures AcceptsAppend(log, m.args.prevIndex, m.args.prevTerm) <==> AgreeUpTo(log, m.built, m.args.prevIndex)
    ensures !AcceptsAppend(log, m.args.prevIndex, m.args.prevTerm) && m.args.prevIndex < |log| ==>
              log[m.args.prevIndex] != m.built[m.args.prevIndex]
  {
    BuiltLog(c, h, m);
    var k := m.args.prevIndex;
    if 0 <= k < |log| && log[k].term == m.args.prevTerm {
      BackedMatch(h, log, m.built, k);
      forall j | 0 <= j <= k
        ensures log[j] == m.built[j]
      {
        assert log[..k + 1][j] == m.built[..k + 1][j];
      }
    }
  }

  // ---------------------------------------------------------------------- answers

  /** What a leader learns from an answer. To an append of another term, nothing, nor
      from a success without entries. A success with entries credits the peer with the
      sender's log at build time and nobody else; a refusal steps back by one. */
  lemma AnswerLearnt(c: Config, r: Run, i: nat, rep: AppendReply)
    requires Takes(c, r, i, ReceiveAppendReply(rep), rep.append.args.leader)
    ensures rep.append.args.leader in r.states[i + 1].nodes
    ensures var n, p := rep.append.args.leader, rep.append.to;
            var node, node' := r.states[i].nodes[n], r.states[i + 1].nodes[n];
            var current := node.role == Leader && node.currentTerm == rep.append.args.term;
            && p in node.nextIndex && node'.log == node.log
            && (!current ==> node' == node)
            && (current && rep.term <= node.currentTerm && rep.success && rep.append.args.entries == [] ==> node' == node)
            && (current && rep.term <= node.currentTerm && rep.success && rep.append.args.entries != [] ==>
                  && node'.matchIndex == node.matchIndex[p := |rep.append.built| - 1]
                  && node'.nextIndex == node.nextIndex[p := |rep.append.built|])
            && (current && rep.term <= node.currentTerm && !rep.success ==>
                  && node'.matchIndex == node.matchIndex && node'.commitIndex == node.commitIndex
                  && node'.nextIndex == node.nextIndex[p := Max(0, node.nextIndex[p] as int - 1)])
  {
    var s, n := r.states[i], rep.append.args.leader;
    Around(c, r, i, n);
    RunInv(c, r, i);
    assert AppendReplyInv(c, s.history, rep);
    BuiltLog(c, s.history, rep.append);
    CommitFields(Credited(s.nodes[n], rep), |c.members|);
  }
}
