/** The part of the inductive invariant that holds on every run, however messages
    are lost, duplicated, delayed or reordered. */
module RaftInvariant {
  import opened Common
  import opened RaftNode
  import opened RaftCluster

  // ---------------------------------------------------------------------- logs

  ghost predicate Sorted(log: Log) {
    forall i, j :: 0 <= i <= j < |log| ==> log[i].term <= log[j].term
  }

  ghost predicate TermsBelow(log: Log, bound: nat) {
    forall i :: 0 <= i < |log| ==> log[i].term < bound
  }

  // Most quantifiers below are triggered by the predicate they establish, so that an
  // instance is used exactly where a proof names it.

  ghost predicate EntryBacked(h: History, log: Log, i: nat)
    requires i < |log|
  {
    log[i].term in h.reigns && log[..i + 1] <= h.reigns[log[i].term].log
  }

  /** Every entry came from the leader of its term, together with all entries before it. */
  ghost predicate Backed(h: History, log: Log) {
    forall i: nat {:trigger EntryBacked(h, log, i)} :: i < |log| ==> EntryBacked(h, log, i)
  }

  // ------------------------------------------------------------------- history

  ghost predicate Voted(h: History, n: NodeId, term: nat, candidate: NodeId) {
    Seat(n, term) in h.votes && h.votes[Seat(n, term)] == candidate
  }

  function VoteOf(h: History, seat: Seat): Option<NodeId> {
    if seat in h.votes then Some(h.votes[seat]) else None
  }

  ghost predicate ReignInv(c: Config, h: History, t: nat)
    requires t in h.reigns
  {
    var r := h.reigns[t];
    && r.leader in c.Nodes()
    && r.voters <= c.Nodes() && c.Majority(r.voters)
    && (forall v :: v in r.voters ==> Voted(h, v, t, r.leader))
    && Seat(r.leader, t) in h.campaigns && h.campaigns[Seat(r.leader, t)] == r.start
    && r.start <= r.log
    && (forall i :: |r.start| <= i < |r.log| ==> r.log[i].term == t)
    && Backed(h, r.log) && Sorted(r.log)
  }

  ghost predicate CampaignInv(c: Config, h: History, seat: Seat)
    requires seat in h.campaigns
  {
    && seat.node in c.Nodes()
    && Voted(h, seat.node, seat.term, seat.node)
    && Backed(h, h.campaigns[seat])
    && TermsBelow(h.campaigns[seat], seat.term)
  }

  ghost predicate VoteInv(c: Config, h: History, seat: Seat)
    requires seat in h.votes
  {
    seat.node in c.Nodes() && Seat(h.votes[seat], seat.term) in h.campaigns
  }

  ghost predicate AcceptedInv(c: Config, h: History, seat: Seat)
    requires seat in h.accepted
  {
    && seat.node in c.Nodes()
    && seat.term in h.reigns
    && h.accepted[seat] <= h.reigns[seat.term].log
  }

  ghost predicate HistoryInv(c: Config, h: History) {
    && (forall t {:trigger ReignInv(c, h, t)} :: t in h.reigns ==> ReignInv(c, h, t))
    && (forall seat {:trigger CampaignInv(c, h, seat)} :: seat in h.campaigns ==> CampaignInv(c, h, seat))
    && (forall seat {:trigger VoteInv(c, h, seat)} :: seat in h.votes ==> VoteInv(c, h, seat))
    && (forall seat {:trigger AcceptedInv(c, h, seat)} :: seat in h.accepted ==> AcceptedInv(c, h, seat))
  }

  // --------------------------------------------------------------------- nodes

  /** A node has no vote, campaign or accepted append beyond its term. */
  ghost predicate SeatsWithin(h: History, n: NodeId, term: nat) {
    && (forall t: nat :: Seat(n, t) in h.votes ==> t <= term)
    && (forall t: nat :: Seat(n, t) in h.campaigns ==> t <= term)
    && (forall t: nat :: Seat(n, t) in h.accepted ==> t <= term)
  }

  /** Candidate stability: the log is still the advertised one. */
  ghost predicate CandidateInv(h: History, n: NodeId, node: Node) {
    && Seat(n, node.currentTerm) in h.campaigns
    && h.campaigns[Seat(n, node.currentTerm)] == node.log
    && (node.currentTerm in h.reigns ==> h.reigns[node.currentTerm].leader != n)
  }

  /** What a leader knows about one peer is backed by what the peer accepted. */
  ghost predicate PeerIndexInv(h: History, node: Node, p: NodeId)
    requires p in node.nextIndex && p in node.matchIndex
  {
    && node.nextIndex[p] <= |node.log|
    && node.matchIndex[p] < |node.log|
    && node.matchIndex[p] + 1 <= |Accepted(h, p, node.currentTerm)|
  }

  ghost predicate LeaderInv(h: History, n: NodeId, node: Node) {
    && node.currentTerm in h.reigns
    && h.reigns[node.currentTerm].leader == n
    && h.reigns[node.currentTerm].log == node.log
    && Accepted(h, n, node.currentTerm) == node.log
    && node.matchIndex.Keys == node.nextIndex.Keys
    && forall p {:trigger PeerIndexInv(h, node, p)} :: p in node.nextIndex ==> PeerIndexInv(h, node, p)
  }

  ghost predicate NodeInv(h: History, n: NodeId, node: Node) {
    && Backed(h, node.log)
    && TermsBelow(node.log, node.currentTerm + 1)
    && SeatsWithin(h, n, node.currentTerm)
    && node.votedFor == VoteOf(h, Seat(n, node.currentTerm))
    && (node.role == Candidate ==> CandidateInv(h, n, node))
    && (node.role == Leader ==> LeaderInv(h, n, node))
  }

  ghost predicate NodesInv(h: History, nodes: map<NodeId, Node>) {
    forall n {:trigger NodeInv(h, n, nodes[n])} :: n in nodes ==> NodeInv(h, n, nodes[n])
  }

  // ------------------------------------------------------- elections, messages

  /** The counter is one plus the number of distinct peers that voted for this seat. */
  ghost predicate ElectionInv(c: Config, h: History, seat: Seat, e: Election) {
    && seat in h.campaigns
    && e.lastIndex == LastIndex(h.campaigns[seat]) && e.lastTerm == LastTerm(h.campaigns[seat])
    && e.votes == 1 + |e.granted|
    && Distinct(e.remaining)
    && (forall p :: p in e.remaining ==> p in Peers(c, seat.node) && p !in e.granted)
    && (forall p :: p in e.granted ==> p in Peers(c, seat.node) && Voted(h, p, seat.term, seat.node))
    && (seat.term in h.reigns ==> h.reigns[seat.term].leader != seat.node)
  }

  ghost predicate ElectionsInv(c: Config, h: History, elections: map<Seat, Election>) {
    forall seat {:trigger ElectionInv(c, h, seat, elections[seat])} :: seat in elections ==>
      ElectionInv(c, h, seat, elections[seat])
  }

  ghost predicate VoteRequestInv(h: History, req: VoteRequest) {
    var seat := Seat(req.candidate, req.term);
    && seat in h.campaigns
    && req.lastIndex == LastIndex(h.campaigns[seat])
    && req.lastTerm == LastTerm(h.campaigns[seat])
  }

  ghost predicate VoteReplyInv(h: History, reply: VoteReply) {
    reply.granted ==> Voted(h, reply.request.to, reply.request.term, reply.request.candidate)
  }

  /** The entries are all of the log after the given index. */
  ghost predicate CarriesSuffix(log: Log, prevIndex: Index, entries: Log) {
    && |log| == prevIndex + 1 + |entries|
    && forall i {:trigger log[i]} :: prevIndex < i < |log| ==> log[i] == entries[i - (prevIndex + 1)]
  }

  /** An append carries the whole suffix of its sender's log. */
  ghost predicate AppendInv(c: Config, h: History, m: Append) {
    && m.args.term in h.reigns
    && m.args.leader == h.reigns[m.args.term].leader
    && m.to in Peers(c, m.args.leader)
    && h.reigns[m.args.term].start <= m.built <= h.reigns[m.args.term].log
    && m.args.prevIndex < |m.built|
    && m.args.prevTerm == (if m.args.prevIndex >= 0 then m.built[m.args.prevIndex].term else 0)
    && CarriesSuffix(m.built, m.args.prevIndex, m.args.entries)
  }

  ghost predicate AppendReplyInv(c: Config, h: History, r: AppendReply) {
    && AppendInv(c, h, r.append)
    && (r.success && r.append.args.entries != [] ==>
          |r.append.built| <= |Accepted(h, r.append.to, r.append.args.term)|)
  }

  ghost predicate NetInv(c: Config, h: History, net: Network) {
    && (forall m {:trigger VoteRequestInv(h, m)} :: m in net.voteRequests ==> VoteRequestInv(h, m))
    && (forall m {:trigger VoteReplyInv(h, m)} :: m in net.voteReplies ==> VoteReplyInv(h, m))
    && (forall m {:trigger AppendInv(c, h, m)} :: m in net.appends ==> AppendInv(c, h, m))
    && (forall m {:trigger AppendReplyInv(c, h, m)} :: m in net.appendReplies ==> AppendReplyInv(c, h, m))
  }

  ghost predicate Inv(c: Config, s: Cluster) {
    && TypeOk(c, s)
    && HistoryInv(c, s.history)
    && NodesInv(s.history, s.nodes)
    && ElectionsInv(c, s.history, s.elections)
    && NetInv(c, s.history, s.net)
  }

  // ------------------------------------------------------- lemmas about logs

  lemma BackedPrefix(h: History, log: Log, k: nat)
    requires Backed(h, log) && k <= |log|
    ensures Backed(h, log[..k])
  {
    forall i: nat | i < k
      ensures EntryBacked(h, log[..k], i)
    {
      assert EntryBacked(h, log, i);
      assert log[..k][..i + 1] == log[..i + 1];
    }
  }

  /** Log matching for any two backed logs. */
  lemma BackedMatch(h: History, a: Log, b: Log, i: nat)
    requires Backed(h, a) && Backed(h, b)
    requires i < |a| && i < |b| && a[i].term == b[i].term
    ensures a[..i + 1] == b[..i + 1]
  {
    assert EntryBacked(h, a, i) && EntryBacked(h, b, i);
    var r := h.reigns[a[i].term].log;
    assert a[..i + 1] == r[..i + 1] && b[..i + 1] == r[..i + 1];
  }

  lemma BackedSorted(c: Config, h: History, log: Log)
    requires HistoryInv(c, h) && Backed(h, log)
    ensures Sorted(log)
  {
    forall i: nat, j: nat | i <= j < |log|
      ensures log[i].term <= log[j].term
    {
      assert EntryBacked(h, log, j);
      var r := h.reigns[log[j].term].log;
      assert ReignInv(c, h, log[j].term);
      assert r[i] == log[..j + 1][i] == log[i] && r[j] == log[..j + 1][j] == log[j];
    }
  }

  /** A backed log extended by an entry whose whole prefix a reign has. */
  lemma BackedSnoc(h: History, log: Log, e: Entry)
    requires Backed(h, log)
    requires e.term in h.reigns && log + [e] <= h.reigns[e.term].log
    ensures Backed(h, log + [e])
  {
    var longer := log + [e];
    forall i: nat | i < |longer|
      ensures EntryBacked(h, longer, i)
    {
      if i < |log| {
        assert EntryBacked(h, log, i);
        assert longer[..i + 1] == log[..i + 1];
      } else {
        assert longer[..i + 1] == longer;
      }
    }
  }

  // ---------------------------------------------------- how the history moves

  ghost predicate Extends(h: History, h': History) {
    && (forall seat :: seat in h.campaigns ==> seat in h'.campaigns && h'.campaigns[seat] == h.campaigns[seat])
    && (forall seat :: seat in h.votes ==> seat in h'.votes && h'.votes[seat] == h.votes[seat])
    && (forall t :: t in h.reigns ==> t in h'.reigns && ReignGrows(h.reigns[t], h'.reigns[t]))
    && (forall seat :: seat in h.accepted ==> seat in h'.accepted && h.accepted[seat] <= h'.accepted[seat])
  }

  ghost predicate ReignGrows(r: Reign, r': Reign) {
    r'.leader == r.leader && r'.voters == r.voters && r'.start == r.start && r.log <= r'.log
  }

  /** The history is extended by node `n` only. */
  ghost predicate ActsAs(h: History, h': History, n: NodeId) {
    && Extends(h, h')
    && (forall seat :: seat in h'.campaigns && seat !in h.campaigns ==> seat.node == n)
    && (forall seat :: seat in h'.votes && seat !in h.votes ==> seat.node == n)
    && (forall t :: t in h'.reigns && t !in h.reigns ==> h'.reigns[t].leader == n)
    && (forall t :: t in h.reigns && h.reigns[t].leader != n ==> h'.reigns[t] == h.reigns[t])
    && (forall seat :: seat in h'.accepted && seat !in h.accepted ==> seat.node == n)
    && (forall seat :: seat in h.accepted && seat.node != n ==> h'.accepted[seat] == h.accepted[seat])
  }

  lemma BackedMono(h: History, h': History, log: Log)
    requires Backed(h, log) && Extends(h, h')
    ensures Backed(h', log)
  {
    forall i: nat | i < |log|
      ensures EntryBacked(h', log, i)
    {
      assert EntryBacked(h, log, i);
      assert ReignGrows(h.reigns[log[i].term], h'.reigns[log[i].term]);
    }
  }

  lemma AcceptedMono(h: History, h': History, n: NodeId, t: nat)
    requires Extends(h, h')
    ensures Accepted(h, n, t) <= Accepted(h', n, t)
  {
  }

  lemma ReignMono(c: Config, h: History, h': History, t: nat)
    requires Extends(h, h') && t in h.reigns && ReignInv(c, h, t) && h'.reigns[t] == h.reigns[t]
    ensures ReignInv(c, h', t)
  {
    BackedMono(h, h', h.reigns[t].log);
  }

  lemma CampaignMono(c: Config, h: History, h': History, seat: Seat)
    requires Extends(h, h') && seat in h.campaigns && CampaignInv(c, h, seat)
    ensures CampaignInv(c, h', seat)
  {
    BackedMono(h, h', h.campaigns[seat]);
  }

  lemma NodeFrame(h: History, h': History, n: NodeId, m: NodeId, node: Node)
    requires ActsAs(h, h', n) && m != n && NodeInv(h, m, node)
    ensures NodeInv(h', m, node)
  {
    BackedMono(h, h', node.log);
    if node.role == Leader {
      forall p | p in node.nextIndex
        ensures PeerIndexInv(h', node, p)
      {
        assert PeerIndexInv(h, node, p);
        AcceptedMono(h, h', p, node.currentTerm);
      }
    }
  }

  lemma ElectionFrame(c: Config, h: History, h': History, n: NodeId, seat: Seat, e: Election)
    requires ActsAs(h, h', n) && ElectionInv(c, h, seat, e)
    requires seat.term in h'.reigns && seat.term !in h.reigns ==> seat.node != n
    ensures ElectionInv(c, h', seat, e)
  {
    if seat.term in h.reigns {
      assert ReignGrows(h.reigns[seat.term], h'.reigns[seat.term]);
    }
  }

  lemma AppendMono(c: Config, h: History, h': History, m: Append)
    requires Extends(h, h') && AppendInv(c, h, m)
    ensures AppendInv(c, h', m)
  {
    assert ReignGrows(h.reigns[m.args.term], h'.reigns[m.args.term]);
  }

  lemma NetMono(c: Config, h: History, h': History, net: Network)
    requires Extends(h, h') && NetInv(c, h, net)
    ensures NetInv(c, h', net)
  {
    forall m | m in net.voteRequests
      ensures VoteRequestInv(h', m)
    {
      assert VoteRequestInv(h, m);
    }
    forall m | m in net.voteReplies
      ensures VoteReplyInv(h', m)
    {
      assert VoteReplyInv(h, m);
    }
    forall m | m in net.appends
      ensures AppendInv(c, h', m)
    {
      assert AppendInv(c, h, m);
      AppendMono(c, h, h', m);
    }
    forall m | m in net.appendReplies
      ensures AppendReplyInv(c, h', m)
    {
      assert AppendReplyInv(c, h, m);
      AppendMono(c, h, h', m.append);
      AcceptedMono(h, h', m.append.to, m.append.args.term);
    }
  }

  // ----------------------------------------------------------------- majorities

  /** The set of members is as large as the member table. */
  lemma {:induction false} MemberCount(c: Config)
    requires Distinct(c.members)
    ensures |c.Nodes()| == |c.members|
    decreases |c.members|
  {
    if c.members == [] {
      assert c.Nodes() == {};
    } else {
      var rest := Config(c.members[1..]);
      MemberCount(rest);
      assert c.members[0] !in rest.members;
      assert c.members == [c.members[0]] + rest.members;
      assert c.Nodes() == {c.members[0]} + rest.Nodes();
    }
  }

  /** Two majorities of one cluster share a member. */
  lemma MajoritiesMeet(c: Config, a: set<NodeId>, b: set<NodeId>) returns (n: NodeId)
    requires c.Valid() && a <= c.Nodes() && b <= c.Nodes() && c.Majority(a) && c.Majority(b)
    ensures n in a && n in b
  {
    MemberCount(c);
    if a * b == {} {
      SubsetSize(a + b, c.Nodes());
      assert false;
    }
    n :| n in a * b;
  }
}
