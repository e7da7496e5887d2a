/** A whole Raft cluster: nodes, election threads, the messages ever sent, and
    history variables. Messages are never removed, so a message may be handled
    late, repeatedly, out of order or not at all. A node that stops simply takes no
    more steps. */
module RaftCluster {
  import opened Common
  import opened RaftNode

  // ------------------------------------------------------------- configuration

  /** The fixed membership, in the order of the node table. */
  datatype Config = Config(members: seq<NodeId>) {
    ghost predicate Valid() {
      && |members| > 0
      && Distinct(members)
    }

    function Nodes(): set<NodeId> {
      set n | n in members
    }

    /** More than half of the cluster. */
    predicate Majority(nodes: set<NodeId>) {
      |nodes| > |members| / 2
    }
  }

  /** The peers of a node in table order. */
  function Without(members: seq<NodeId>, self: NodeId): seq<NodeId> {
    if |members| == 0 then []
    else (if members[0] == self then [] else [members[0]]) + Without(members[1..], self)
  }

  function Peers(c: Config, self: NodeId): set<NodeId> {
    c.Nodes() - {self}
  }

  // ------------------------------------------------------------------ messages

  datatype VoteRequest = VoteRequest(
    to: NodeId, term: nat, candidate: NodeId, lastIndex: Index, lastTerm: nat)

  datatype VoteReply = VoteReply(request: VoteRequest, term: nat, granted: bool)

  /** An append in flight. `built` (the sender's log when it was built) and `stamp`
      (the number of appends built before it) are history: no handler reads them. */
  datatype Append = Append(to: NodeId, args: AppendArgs, built: Log, stamp: nat)

  datatype AppendReply = AppendReply(append: Append, term: nat, success: bool)

  datatype Network = Network(
    voteRequests: set<VoteRequest>,
    voteReplies: set<VoteReply>,
    appends: set<Append>,
    appendReplies: set<AppendReply>)

  // ------------------------------------------------------- threads and history

  /** A node in a term. */
  datatype Seat = Seat(node: NodeId, term: nat)

  /** An election thread: what it advertises, the peers it has yet to hear from (the
      first is the one being asked) and its vote counter. `granted` is history: the
      peers whose votes were counted. */
  datatype Election = Election(
    lastIndex: Index, lastTerm: nat, remaining: seq<NodeId>, votes: nat, granted: set<NodeId>)

  /** One leadership: who won, by whose votes, with which log, and the log so far. */
  datatype Reign = Reign(leader: NodeId, voters: set<NodeId>, start: Log, log: Log)

  /** Only ever extended, never read by a node.
      campaigns: the log with which a node campaigned in a term;
      votes:     whom a node voted for in a term;
      reigns:    the leadership of a term;
      accepted:  the longest log a node accepted from the leader of a term. */
  datatype History = History(
    campaigns: map<Seat, Log>,
    votes: map<Seat, NodeId>,
    reigns: map<nat, Reign>,
    accepted: map<Seat, Log>)

  /** Only the ordering assumption looks at this.
      handled: the stamp of the last append of a term that a node handled;
      builds:  the number of appends built. */
  datatype Ordering = Ordering(handled: map<Seat, nat>, builds: nat)

  function Accepted(h: History, n: NodeId, term: nat): Log {
    if Seat(n, term) in h.accepted then h.accepted[Seat(n, term)] else []
  }

  datatype Cluster = Cluster(
    nodes: map<NodeId, Node>,
    elections: map<Seat, Election>,
    net: Network,
    history: History,
    order: Ordering)

  function Init(c: Config): Cluster {
    Cluster(map n | n in c.Nodes() :: InitialNode(Peers(c, n)), map[],
            Network({}, {}, {}, {}), History(map[], map[], map[], map[]), Ordering(map[], 0))
  }

  /** Every member is present and knows its peers. */
  ghost predicate TypeOk(c: Config, s: Cluster) {
    && s.nodes.Keys == c.Nodes()
    && forall n {:trigger KnowsPeers(c, n, s.nodes[n])} :: n in s.nodes ==> KnowsPeers(c, n, s.nodes[n])
  }

  ghost predicate KnowsPeers(c: Config, n: NodeId, node: Node) {
    node.nextIndex.Keys == Peers(c, n) && node.matchIndex.Keys == Peers(c, n)
  }

  // --------------------------------------------------------------------- steps

  /** The lock-held blocks, plus the two moves of an election thread between them:
      sending the next request, and giving up on a peer. */
  datatype Step =
    | Timeout(node: NodeId)
    | AskVote(seat: Seat)
    | HandleVoteRequest(request: VoteRequest)
    | ReceiveVote(reply: VoteReply)
    | SkipPeer(seat: Seat)
    | FinishElection(seat: Seat)
    | Submit(node: NodeId, data: Data)
    | SendAppend(node: NodeId, peer: NodeId)
    | HandleAppend(append: Append)
    | ReceiveAppendReply(appendReply: AppendReply)

  ghost predicate Enabled(c: Config, s: Cluster, step: Step) {
    match step
    case Timeout(n) => n in s.nodes
    case AskVote(seat) => seat in s.elections && s.elections[seat].remaining != []
    case HandleVoteRequest(req) => req in s.net.voteRequests && req.to in s.nodes
    case ReceiveVote(reply) =>
      var seat := Seat(reply.request.candidate, reply.request.term);
      && reply in s.net.voteReplies
      && seat.node in s.nodes
      && seat in s.elections
      && s.elections[seat].remaining != []
      && s.elections[seat].remaining[0] == reply.request.to
    case SkipPeer(seat) => seat in s.elections && s.elections[seat].remaining != []
    case FinishElection(seat) =>
      seat.node in s.nodes && seat in s.elections && s.elections[seat].remaining == []
    case Submit(n, data) => n in s.nodes
    case SendAppend(n, peer) => n in s.nodes && peer in Peers(c, n) && s.nodes[n].role == Leader
    case HandleAppend(m) => m in s.net.appends && m.to in s.nodes
    case ReceiveAppendReply(r) =>
      && r in s.net.appendReplies
      && r.append.args.leader in s.nodes
      && r.append.to in Peers(c, r.append.args.leader)
  }

  function RecordCampaign(h: History, seat: Seat, log: Log): History {
    h.(campaigns := h.campaigns[seat := log], votes := h.votes[seat := seat.node])
  }

  function RecordVote(h: History, seat: Seat, candidate: NodeId): History {
    h.(votes := h.votes[seat := candidate])
  }

  function RecordWin(h: History, seat: Seat, voters: set<NodeId>, log: Log): History {
    h.(reigns := h.reigns[seat.term := Reign(seat.node, voters, log, log)],
       accepted := h.accepted[seat := log])
  }

  function RecordEntry(h: History, seat: Seat, log: Log): History
    requires seat.term in h.reigns
  {
    h.(reigns := h.reigns[seat.term := h.reigns[seat.term].(log := log)],
       accepted := h.accepted[seat := log])
  }

  /** An accepted append with entries replaces the record of what was accepted, unless
      that record is already longer. */
  function RecordAppend(h: History, seat: Seat, accepts: bool, log: Log): History {
    h.(accepted := if accepts && |Accepted(h, seat.node, seat.term)| < |log|
                   then h.accepted[seat := log] else h.accepted)
  }

  function AfterTimeout(c: Config, s: Cluster, n: NodeId): Cluster
    requires n in s.nodes
  {
    var node := s.nodes[n];
    var seat := Seat(n, node.currentTerm + 1);
    var election := Election(LastIndex(node.log), LastTerm(node.log), Without(c.members, n), 1, {});
    Cluster(s.nodes[n := StartCampaign(node, n)], s.elections[seat := election],
            s.net, RecordCampaign(s.history, seat, node.log), s.order)
  }

  function AfterAskVote(s: Cluster, seat: Seat): Cluster
    requires seat in s.elections && s.elections[seat].remaining != []
  {
    var e := s.elections[seat];
    var request := VoteRequest(e.remaining[0], seat.term, seat.node, e.lastIndex, e.lastTerm);
    s.(net := s.net.(voteRequests := s.net.voteRequests + {request}))
  }

  function AfterVoteRequest(s: Cluster, req: VoteRequest): Cluster
    requires req.to in s.nodes
  {
    var node := s.nodes[req.to];
    var granted := GrantsVote(node, req.term, req.candidate, req.lastIndex, req.lastTerm);
    var node' := HandleRequestVote(node, req.term, req.candidate, req.lastIndex, req.lastTerm);
    Cluster(s.nodes[req.to := node'], s.elections,
            s.net.(voteReplies := s.net.voteReplies + {VoteReply(req, node'.currentTerm, granted)}),
            if granted then RecordVote(s.history, Seat(req.to, req.term), req.candidate) else s.history,
            s.order)
  }

  function CountVote(e: Election, peer: NodeId, counts: bool): Election
    requires e.remaining != []
  {
    Election(e.lastIndex, e.lastTerm, e.remaining[1..],
             if counts then e.votes + 1 else e.votes,
             if counts then e.granted + {peer} else e.granted)
  }

  function AfterVoteReply(s: Cluster, reply: VoteReply): Cluster
    requires reply.request.candidate in s.nodes
    requires Seat(reply.request.candidate, reply.request.term) in s.elections
    requires s.elections[Seat(reply.request.candidate, reply.request.term)].remaining != []
  {
    var seat := Seat(reply.request.candidate, reply.request.term);
    var node := s.nodes[seat.node];
    var e' := CountVote(s.elections[seat], reply.request.to, CountsVote(node, seat.term, reply.granted));
    Cluster(s.nodes[seat.node := HandleVoteReply(node, reply.term)],
            if reply.term > node.currentTerm then s.elections - {seat} else s.elections[seat := e'],
            s.net, s.history, s.order)
  }

  function AfterSkip(s: Cluster, seat: Seat): Cluster
    requires seat in s.elections && s.elections[seat].remaining != []
  {
    s.(elections := s.elections[seat := CountVote(s.elections[seat], seat.node, false)])
  }

  function AfterElection(c: Config, s: Cluster, seat: Seat): Cluster
    requires seat.node in s.nodes && seat in s.elections
  {
    var node := s.nodes[seat.node];
    var e := s.elections[seat];
    Cluster(s.nodes[seat.node := ConcludeElection(node, seat.node, seat.term, e.votes, |c.members|)],
            s.elections - {seat}, s.net,
            if WinsElection(node, seat.term, e.votes, |c.members|)
            then RecordWin(s.history, seat, e.granted + {seat.node}, node.log)
            else s.history,
            s.order)
  }

  function AfterSubmit(s: Cluster, n: NodeId, data: Data): Cluster
    requires n in s.nodes
  {
    var node := RaftNode.Propose(s.nodes[n], data);
    Cluster(s.nodes[n := node], s.elections, s.net,
            if s.nodes[n].role == Leader && node.currentTerm in s.history.reigns
            then RecordEntry(s.history, Seat(n, node.currentTerm), node.log)
            else s.history,
            s.order)
  }

  function AfterSendAppend(s: Cluster, n: NodeId, peer: NodeId): Cluster
    requires n in s.nodes && peer in s.nodes[n].nextIndex
  {
    var node := s.nodes[n];
    var append := Append(peer, BuildAppend(node, n, peer), node.log, s.order.builds);
    Cluster(s.nodes, s.elections, s.net.(appends := s.net.appends + {append}), s.history,
            s.order.(builds := s.order.builds + 1))
  }

  function AfterAppend(s: Cluster, m: Append): Cluster
    requires m.to in s.nodes
  {
    var node := s.nodes[m.to];
    var node' := HandleAppendEntries(node, m.args);
    var success := AppendSucceeds(node, m.args);
    Cluster(s.nodes[m.to := node'], s.elections,
            s.net.(appendReplies := s.net.appendReplies + {AppendReply(m, node'.currentTerm, success)}),
            RecordAppend(s.history, Seat(m.to, m.args.term), success && m.args.entries != [],
                         LogAfterAppend(node.log, m.args.prevIndex, m.args.prevTerm, m.args.entries)),
            s.order.(handled := s.order.handled[Seat(m.to, m.args.term) := m.stamp]))
  }

  function AfterAppendReply(c: Config, s: Cluster, r: AppendReply): Cluster
    requires r.append.args.leader in s.nodes
    requires r.append.to in s.nodes[r.append.args.leader].nextIndex
  {
    var n := r.append.args.leader;
    s.(nodes := s.nodes[n :=
         HandleAppendReply(s.nodes[n], r.append.to, r.append.args, r.term, r.success, |c.members|)])
  }

  function Apply(c: Config, s: Cluster, step: Step): (s': Cluster)
    requires TypeOk(c, s) && Enabled(c, s, step)
  {
    assert step.SendAppend? ==> KnowsPeers(c, step.node, s.nodes[step.node]);
    assert step.ReceiveAppendReply? ==>
        var n := step.appendReply.append.args.leader; KnowsPeers(c, n, s.nodes[n]);
    match step
    case Timeout(n) => AfterTimeout(c, s, n)
    case AskVote(seat) => AfterAskVote(s, seat)
    case HandleVoteRequest(req) => AfterVoteRequest(s, req)
    case ReceiveVote(reply) => AfterVoteReply(s, reply)
    case SkipPeer(seat) => AfterSkip(s, seat)
    case FinishElection(seat) => AfterElection(c, s, seat)
    case Submit(n, data) => AfterSubmit(s, n, data)
    case SendAppend(n, peer) => AfterSendAppend(s, n, peer)
    case HandleAppend(m) => AfterAppend(s, m)
    case ReceiveAppendReply(r) => AfterAppendReply(c, s, r)
  }

  // ---------------------------------------------------------------------- runs

  /** A run: the states and the steps between them. */
  datatype Run = Run(states: seq<Cluster>, steps: seq<Step>)

  ghost predicate IsRun(c: Config, r: Run) {
    && c.Valid()
    && |r.states| == |r.steps| + 1
    && r.states[0] == Init(c)
    && forall i {:trigger r.steps[i]} :: 0 <= i < |r.steps| ==>
         && TypeOk(c, r.states[i])
         && Enabled(c, r.states[i], r.steps[i])
         && r.states[i + 1] == Apply(c, r.states[i], r.steps[i])
  }

  /** The follower's log still ends with entries of the append's own term beyond the
      append's end: accepting it would drop them. The receiver can see this. */
  predicate Overtaken(n: Node, a: AppendArgs) {
    && AppendSucceeds(n, a)
    && a.entries != []
    && EndIndex(a) < LastIndex(n.log)
    && LastTerm(n.log) == a.term
  }

  /** The network assumption of the commit-related properties. */
  ghost predicate InOrder(r: Run)
    requires |r.states| == |r.steps| + 1
  {
    forall i {:trigger r.steps[i]} :: 0 <= i < |r.steps| && r.steps[i].HandleAppend? ==>
      NotOvertaken(r.states[i], r.steps[i].append)
  }

  ghost predicate NotOvertaken(s: Cluster, m: Append) {
    m.to in s.nodes ==> !Overtaken(s.nodes[m.to], m.args)
  }

  /** First-in first-out delivery: no node handles an append built earlier than one of
      the same term that it has already handled. */
  ghost predicate Fifo(r: Run)
    requires |r.states| == |r.steps| + 1
  {
    forall i {:trigger r.steps[i]} :: 0 <= i < |r.steps| && r.steps[i].HandleAppend? ==>
      NotBuiltEarlier(r.states[i].order, r.steps[i].append)
  }

  predicate NotBuiltEarlier(o: Ordering, m: Append) {
    Seat(m.to, m.args.term) in o.handled ==> m.stamp >= o.handled[Seat(m.to, m.args.term)]
  }
}
