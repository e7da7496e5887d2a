/** Runs built one step at a time. */
module RaftRuns {
  import opened Common
  import opened RaftNode
  import opened RaftCluster
  import opened RaftInvariant
  import opened RaftPreservation
  import opened RaftTheorems

  ghost predicate Going(c: Config, r: Run) {
    IsRun(c, r) && TypeOk(c, Last(c, r))
  }

  function Last(c: Config, r: Run): Cluster {
    if |r.states| > 0 then r.states[|r.states| - 1] else Init(c)
  }

  /** The run goes on after the other one. */
  ghost predicate Continues(r: Run, r': Run) {
    r.states <= r'.states && r.steps <= r'.steps
  }

  lemma Longer(c: Config, r: Run, step: Step, s': Cluster)
    requires Going(c, r) && Enabled(c, Last(c, r), step) && s' == Apply(c, Last(c, r), step)
    ensures IsRun(c, Run(r.states + [s'], r.steps + [step]))
  {
    var r' := Run(r.states + [s'], r.steps + [step]);
    forall i | 0 <= i < |r'.steps|
      ensures TypeOk(c, r'.states[i]) && Enabled(c, r'.states[i], r'.steps[i])
      ensures r'.states[i + 1] == Apply(c, r'.states[i], r'.steps[i])
    {
      if i < |r.steps| {
        RunStep(c, r, i);
      }
    }
  }

  lemma StaysTyped(c: Config, r: Run, step: Step)
    requires Going(c, r) && Enabled(c, Last(c, r), step)
    ensures TypeOk(c, Apply(c, Last(c, r), step))
  {
    RunInv(c, r, |r.steps|);
    StepInv(c, Last(c, r), step);
  }

  lemma StaysInOrder(r: Run, step: Step, s': Cluster)
    requires |r.states| == |r.steps| + 1 && InOrder(r)
    requires step.HandleAppend? ==> NotOvertaken(r.states[|r.steps|], step.append)
    ensures InOrder(Run(r.states + [s'], r.steps + [step]))
  {
    var r' := Run(r.states + [s'], r.steps + [step]);
    forall i | 0 <= i < |r'.steps| && r'.steps[i].HandleAppend?
      ensures NotOvertaken(r'.states[i], r'.steps[i].append)
    {
      if i < |r.steps| {
        assert r.steps[i].HandleAppend?;
      }
    }
  }

  /** One more step. */
  lemma Take(c: Config, r: Run, step: Step) returns (r': Run)
    requires Going(c, r) && Enabled(c, Last(c, r), step)
    ensures Going(c, r') && Last(c, r') == Apply(c, Last(c, r), step)
    ensures Continues(r, r') && r'.steps == r.steps + [step]
    ensures InOrder(r) && (step.HandleAppend? ==> NotOvertaken(Last(c, r), step.append)) ==> InOrder(r')
  {
    var s' := Apply(c, Last(c, r), step);
    Longer(c, r, step, s');
    StaysTyped(c, r, step);
    r' := Run(r.states + [s'], r.steps + [step]);
    if InOrder(r) && (step.HandleAppend? ==> NotOvertaken(Last(c, r), step.append)) {
      StaysInOrder(r, step, s');
    }
  }

  lemma Begin(c: Config) returns (r: Run)
    requires c.Valid()
    ensures Going(c, r) && Last(c, r) == Init(c) && InOrder(r)
  {
    r := Run([Init(c)], []);
    InitInv(c);
  }

  /** The run goes on by one step that is not the handling of an overtaken append. */
  ghost predicate OneMore(c: Config, r: Run, r': Run, step: Step) {
    && Going(c, r') && Continues(r, r') && r'.steps == r.steps + [step]
    && |r.states| == |r.steps| + 1
    && (InOrder(r) ==> InOrder(r'))
  }

  // ------------------------------------------------------------------- the steps

  lemma Campaign(c: Config, r: Run, n: NodeId) returns (r': Run)
    requires Going(c, r) && n in Last(c, r).nodes
    ensures OneMore(c, r, r', Timeout(n))
    ensures var s, s', node := Last(c, r), Last(c, r'), Last(c, r).nodes[n];
            && s'.nodes == s.nodes[n := StartCampaign(node, n)] && s'.net == s.net
            && var seat := Seat(n, node.currentTerm + 1);
               seat in s'.elections && s'.elections[seat] ==
                 Election(LastIndex(node.log), LastTerm(node.log), Without(c.members, n), 1, {})
  {
    r' := Take(c, r, Timeout(n));
  }

  lemma Skip(c: Config, r: Run, seat: Seat) returns (r': Run)
    requires Going(c, r) && seat in Last(c, r).elections && Last(c, r).elections[seat].remaining != []
    ensures OneMore(c, r, r', SkipPeer(seat))
    ensures var s, s' := Last(c, r), Last(c, r');
            && s'.nodes == s.nodes && s'.net == s.net
            && seat in s'.elections && s'.elections[seat] == CountVote(s.elections[seat], seat.node, false)
  {
    r' := Take(c, r, SkipPeer(seat));
  }

  /** The seat is being contested, the peer is asked next and will say yes. */
  ghost predicate WillGrant(s: Cluster, seat: Seat, v: NodeId) {
    && seat in s.elections && seat.node in s.nodes && v in s.nodes && v != seat.node
    && s.elections[seat].remaining != [] && s.elections[seat].remaining[0] == v
    && s.nodes[seat.node].role == Candidate && s.nodes[seat.node].currentTerm == seat.term
    && s.nodes[v].currentTerm < seat.term
    && UpToDate(s.elections[seat].lastTerm, s.elections[seat].lastIndex, s.nodes[v].log)
  }

  function Voter(node: Node, seat: Seat): Node {
    StepDown(node, seat.term).(votedFor := Some(seat.node))
  }

  /** A candidate asks a peer of an older term, which grants its vote. */
  lemma Ask(c: Config, r: Run, seat: Seat, v: NodeId) returns (r': Run)
    requires Going(c, r) && WillGrant(Last(c, r), seat, v)
    ensures Going(c, r') && Continues(r, r')
    ensures var s, s' := Last(c, r), Last(c, r');
            && s'.nodes == s.nodes[v := Voter(s.nodes[v], seat)] && s'.net.appends == s.net.appends
            && seat in s'.elections && s'.elections[seat] == CountVote(s.elections[seat], v, true)
  {
    var s, e := Last(c, r), Last(c, r).elections[seat];
    var request := VoteRequest(v, seat.term, seat.node, e.lastIndex, e.lastTerm);
    var asked := Take(c, r, AskVote(seat));
    var granted := Grant(c, asked, request);
    var reply := VoteReply(request, seat.term, true);
    r' := Take(c, granted, ReceiveVote(reply));
    assert Last(c, r').nodes[seat.node] == s.nodes[seat.node];
  }

  lemma Grant(c: Config, r: Run, req: VoteRequest) returns (r': Run)
    requires Going(c, r) && req in Last(c, r).net.voteRequests && req.to in Last(c, r).nodes
    requires Last(c, r).nodes[req.to].currentTerm < req.term
    requires UpToDate(req.lastTerm, req.lastIndex, Last(c, r).nodes[req.to].log)
    ensures OneMore(c, r, r', HandleVoteRequest(req))
    ensures var s, s' := Last(c, r), Last(c, r');
            && s'.nodes == s.nodes[req.to := Voter(s.nodes[req.to], Seat(req.candidate, req.term))]
            && s'.elections == s.elections && s'.net.appends == s.net.appends
            && VoteReply(req, req.term, true) in s'.net.voteReplies
  {
    assert GrantsVote(Last(c, r).nodes[req.to], req.term, req.candidate, req.lastIndex, req.lastTerm);
    r' := Take(c, r, HandleVoteRequest(req));
  }

  lemma Finish(c: Config, r: Run, seat: Seat) returns (r': Run)
    requires Going(c, r) && seat in Last(c, r).elections && seat.node in Last(c, r).nodes
    requires Last(c, r).elections[seat].remaining == []
    ensures OneMore(c, r, r', FinishElection(seat))
    ensures var s, s' := Last(c, r), Last(c, r');
            && s'.nodes == s.nodes[seat.node :=
                 ConcludeElection(s.nodes[seat.node], seat.node, seat.term, s.elections[seat].votes, |c.members|)]
            && s'.net == s.net
  {
    r' := Take(c, r, FinishElection(seat));
  }

  lemma SubmitEntry(c: Config, r: Run, n: NodeId, data: Data) returns (r': Run)
    requires Going(c, r) && n in Last(c, r).nodes && Last(c, r).nodes[n].role == Leader
    ensures OneMore(c, r, r', Submit(n, data)) && Last(c, r').net == Last(c, r).net
    ensures Last(c, r').nodes == Last(c, r).nodes[n := RaftNode.Propose(Last(c, r).nodes[n], data)]
  {
    r' := Take(c, r, Submit(n, data));
  }

  lemma Send(c: Config, r: Run, n: NodeId, p: NodeId) returns (r': Run, m: Append)
    requires Going(c, r) && n in Last(c, r).nodes && Last(c, r).nodes[n].role == Leader && p in Peers(c, n)
    ensures p in Last(c, r).nodes[n].nextIndex
    ensures OneMore(c, r, r', SendAppend(n, p)) && Last(c, r').nodes == Last(c, r).nodes
    ensures m.to == p && m.args == BuildAppend(Last(c, r).nodes[n], n, p)
    ensures Last(c, r').net.appends == Last(c, r).net.appends + {m}
  {
    assert KnowsPeers(c, n, Last(c, r).nodes[n]);
    m := Append(p, BuildAppend(Last(c, r).nodes[n], n, p), Last(c, r).nodes[n].log, Last(c, r).order.builds);
    r' := Take(c, r, SendAppend(n, p));
  }

  lemma Deliver(c: Config, r: Run, m: Append) returns (r': Run, reply: AppendReply)
    requires Going(c, r) && m in Last(c, r).net.appends && m.to in Last(c, r).nodes
    ensures Going(c, r') && Continues(r, r') && r'.steps == r.steps + [HandleAppend(m)]
    ensures InOrder(r) && !Overtaken(Last(c, r).nodes[m.to], m.args) ==> InOrder(r')
    ensures Last(c, r').net.appends == Last(c, r).net.appends
    ensures var node, node' := Last(c, r).nodes[m.to], HandleAppendEntries(Last(c, r).nodes[m.to], m.args);
            && Last(c, r').nodes == Last(c, r).nodes[m.to := node']
            && reply == AppendReply(m, node'.currentTerm, AppendSucceeds(node, m.args))
    ensures reply in Last(c, r').net.appendReplies
  {
    r' := Take(c, r, HandleAppend(m));
    var node := Last(c, r).nodes[m.to];
    reply := AppendReply(m, HandleAppendEntries(node, m.args).currentTerm, AppendSucceeds(node, m.args));
  }

  lemma Acknowledge(c: Config, r: Run, reply: AppendReply) returns (r': Run)
    requires Going(c, r) && reply in Last(c, r).net.appendReplies
    requires reply.append.args.leader in Last(c, r).nodes && reply.append.to in Peers(c, reply.append.args.leader)
    ensures reply.append.to in Last(c, r).nodes[reply.append.args.leader].nextIndex
    ensures OneMore(c, r, r', ReceiveAppendReply(reply)) && Last(c, r').net == Last(c, r).net
    ensures var n := reply.append.args.leader;
            Last(c, r').nodes == Last(c, r).nodes[n :=
              HandleAppendReply(Last(c, r).nodes[n], reply.append.to, reply.append.args,
                                reply.term, reply.success, |c.members|)]
  {
    assert KnowsPeers(c, reply.append.args.leader, Last(c, r).nodes[reply.append.args.leader]);
    r' := Take(c, r, ReceiveAppendReply(reply));
  }
}
