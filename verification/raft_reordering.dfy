/** Why appends must arrive in order: in every cluster of three or more nodes there is a
    run in which stale appends, handled after newer ones of the same term, make two nodes
    apply different data. Followers' logs are cut back (consensus.py overwrites its tail
    unconditionally) after their leader has counted the longer logs as acknowledged. */
module RaftReordering {
  import opened Common
  import opened RaftNode
  import opened RaftCluster
  import opened RaftInvariant
  import opened RaftPreservation
  import opened RaftSafety
  import opened RaftTheorems
  import opened RaftRuns

  const A := Json("a")
  const B := Json("b")
  const C := Json("c")

  const SHORT: Log := [Entry(1, A)]
  const FIRST: Log := [Entry(1, A), Entry(1, B)]
  const SECOND: Log := [Entry(1, A), Entry(2, C)]

  // ---------------------------------------------------------------- single nodes

  /** A node that has committed nothing. */
  ghost predicate Fresh(node: Node, term: nat, log: Log) {
    node.currentTerm == term && node.log == log
    && node.commitIndex == -1 && node.lastApplied == -1 && node.stateMachine == []
  }

  /** A leader that sends from `start` on, with whole-log acknowledgements from `acked`. */
  ghost predicate Leads(node: Node, size: nat, log: Log, start: nat, acked: set<NodeId>) {
    && node.role == Leader && node.log == log && 0 < |log| && start <= |log|
    && log[|log| - 1].term == node.currentTerm
    && node.nextIndex.Keys == node.matchIndex.Keys && acked <= node.matchIndex.Keys
    && (forall p {:trigger node.matchIndex[p]} :: p in node.matchIndex ==>
          node.matchIndex[p] == if p in acked then |log| - 1 else -1)
    && (forall p {:trigger node.nextIndex[p]} :: p in node.nextIndex && p !in acked ==> node.nextIndex[p] == start)
    && (if 1 + |acked| > size / 2 then node.commitIndex == |log| - 1 && node.stateMachine == Payloads(log)
        else Fresh(node, node.currentTerm, log))
  }

  lemma HoldersAre(node: Node, size: nat, log: Log, start: nat, acked: set<NodeId>, p: NodeId, i: Index)
    requires Leads(node, size, log, start, acked) && p in node.nextIndex && 0 <= i < |log|
    ensures Holders(RecordAck(node, p, |log| - 1).matchIndex, i) == acked + {p}
  {
    var acks := RecordAck(node, p, |log| - 1).matchIndex;
    forall q
      ensures q in Holders(acks, i) <==> q in acked + {p}
    {
      if q in acks && q != p {
        assert acks[q] == node.matchIndex[q];
      }
    }
  }

  /** With one more acknowledgement, what the search for a commit index finds. */
  lemma SearchFinds(node: Node, size: nat, log: Log, start: nat, acked: set<NodeId>, p: NodeId)
    requires Leads(node, size, log, start, acked) && p in node.nextIndex && p !in acked
    requires 1 + |acked| <= size / 2
    ensures CommitTarget(RecordAck(node, p, |log| - 1), size, LastIndex(log)) ==
            if 1 + |acked + {p}| > size / 2 then |log| - 1 else -1
  {
    var node' := RecordAck(node, p, |log| - 1);
    forall i: Index | 0 <= i < |log|
      ensures Holders(node'.matchIndex, i) == acked + {p}
    {
      HoldersAre(node, size, log, start, acked, p, i);
    }
    assert Committable(node', size, |log| - 1) <==> 1 + |acked + {p}| > size / 2;
  }

  /** One more acknowledgement of the whole log; the one that makes a majority commits it. */
  lemma AckCounts(node: Node, size: nat, log: Log, start: nat, acked: set<NodeId>, p: NodeId)
    requires Leads(node, size, log, start, acked) && p in node.nextIndex && p !in acked
    requires 1 + |acked| <= size / 2
    ensures Leads(UpdateCommitIndex(RecordAck(node, p, |log| - 1), size), size, log, start, acked + {p})
  {
    SearchFinds(node, size, log, start, acked, p);
    assert log[0..|log|] == log;
  }

  /** What an append does to a node that accepts it and to which it brings no commit. */
  lemma Takes(node: Node, a: AppendArgs)
    requires node.currentTerm <= a.term && AcceptsAppend(node.log, a.prevIndex, a.prevTerm)
    requires a.entries != [] && a.leaderCommit <= node.commitIndex
    ensures AppendSucceeds(node, a)
    ensures var node' := HandleAppendEntries(node, a);
            && node'.currentTerm == a.term && node'.log == node.log[..a.prevIndex + 1] + a.entries
            && node'.commitIndex == node.commitIndex && node'.lastApplied == node.lastApplied
            && node'.stateMachine == node.stateMachine
  {
  }

  /** A leader's reaction to the acknowledgement of its whole log. */
  lemma AnswerCounts(node: Node, size: nat, log: Log, start: nat, acked: set<NodeId>, n: NodeId, p: NodeId)
    requires Leads(node, size, log, start, acked) && p in node.nextIndex && p !in acked
    requires 1 + |acked| <= size / 2 && start < |log|
    ensures var node' := HandleAppendReply(node, p, Whole(n, node, start), node.currentTerm, true, size);
            && Leads(node', size, log, start, acked + {p}) && node'.currentTerm == node.currentTerm
  {
    AckCounts(node, size, log, start, acked, p);
    CommitFields(RecordAck(node, p, |log| - 1), size);
    assert EndIndex(Whole(n, node, start)) == |log| - 1;
  }

  /** The append a leader sends to a peer that has acknowledged nothing. */
  function Whole(n: NodeId, node: Node, start: nat): AppendArgs
    requires start <= |node.log|
  {
    AppendArgs(node.currentTerm, n, start - 1, if start > 0 then node.log[start - 1].term else 0,
               node.log[start..], node.commitIndex)
  }

  // ------------------------------------------------------------------- elections

  /** The election is under way and every peer in the list will say yes when asked. */
  ghost predicate Contested(s: Cluster, seat: Seat, willing: seq<NodeId>) {
    && seat in s.elections && seat.node in s.nodes && Distinct(s.elections[seat].remaining)
    && s.nodes[seat.node].role == Candidate && s.nodes[seat.node].currentTerm == seat.term
    && willing <= s.elections[seat].remaining
    && forall p :: p in willing ==>
         && p in s.nodes && p != seat.node && s.nodes[p].currentTerm < seat.term
         && UpToDate(s.elections[seat].lastTerm, s.elections[seat].lastIndex, s.nodes[p].log)
  }

  /** Those in the list have voted; nobody else has changed. */
  ghost predicate VotesCast(s: Cluster, s': Cluster, seat: Seat, voters: seq<NodeId>) {
    && s'.nodes.Keys == s.nodes.Keys && s'.net.appends == s.net.appends
    && forall n {:trigger s'.nodes[n]} :: n in s.nodes ==>
         s'.nodes[n] == if n in voters then Voter(s.nodes[n], seat) else s.nodes[n]
  }

  /** The first peers on the list are asked and say yes. */
  lemma {:induction false} AskAll(c: Config, r: Run, seat: Seat, willing: seq<NodeId>) returns (r': Run)
    requires Going(c, r) && Contested(Last(c, r), seat, willing)
    ensures Going(c, r') && VotesCast(Last(c, r), Last(c, r'), seat, willing)
    ensures seat in Last(c, r').elections
    ensures var e, e' := Last(c, r).elections[seat], Last(c, r').elections[seat];
            e'.remaining == e.remaining[|willing|..] && e'.votes == e.votes + |willing|
    decreases |willing|
  {
    if willing == [] {
      r' := r;
    } else {
      var e := Last(c, r).elections[seat];
      assert willing[0] in willing && e.remaining[0] == willing[0];
      var once := Ask(c, r, seat, willing[0]);
      StillContested(Last(c, r), Last(c, once), seat, willing);
      r' := AskAll(c, once, seat, willing[1..]);
      MoreVotes(Last(c, r), Last(c, once), Last(c, r'), seat, willing);
    }
  }

  lemma StillContested(s: Cluster, s': Cluster, seat: Seat, willing: seq<NodeId>)
    requires Contested(s, seat, willing) && willing != [] && seat in s'.elections
    requires s'.nodes == s.nodes[willing[0] := Voter(s.nodes[willing[0]], seat)]
    requires s'.elections[seat] == CountVote(s.elections[seat], willing[0], true)
    ensures Contested(s', seat, willing[1..])
  {
    assert willing[0] in willing;
    assert forall p :: p in willing[1..] ==> p in willing && p != willing[0];
  }

  lemma MoreVotes(s: Cluster, mid: Cluster, s': Cluster, seat: Seat, voters: seq<NodeId>)
    requires voters != [] && Distinct(voters) && voters[0] in s.nodes
    requires mid.nodes == s.nodes[voters[0] := Voter(s.nodes[voters[0]], seat)] && mid.net.appends == s.net.appends
    requires VotesCast(mid, s', seat, voters[1..])
    ensures VotesCast(s, s', seat, voters)
  {
    assert voters == [voters[0]] + voters[1..];
    assert voters[0] !in voters[1..];
  }

  /** The first k peers on the list are given up on. */
  lemma {:induction false} SkipSome(c: Config, r: Run, seat: Seat, k: nat) returns (r': Run)
    requires Going(c, r) && seat in Last(c, r).elections && k <= |Last(c, r).elections[seat].remaining|
    ensures Going(c, r') && Last(c, r').nodes == Last(c, r).nodes && Last(c, r').net == Last(c, r).net
    ensures seat in Last(c, r').elections
    ensures var e, e' := Last(c, r).elections[seat], Last(c, r').elections[seat];
            e'.remaining == e.remaining[k..] && e'.votes == e.votes
            && e'.lastIndex == e.lastIndex && e'.lastTerm == e.lastTerm
    decreases k
  {
    r' := r;
    if k > 0 {
      r' := Skip(c, r, seat);
      r' := SkipSome(c, r', seat, k - 1);
    }
  }

  /** What an election leaves behind: the winner leads, its voters have followed. */
  ghost predicate Elected(c: Config, s: Cluster, s': Cluster, n: NodeId, voters: seq<NodeId>)
    requires n in s.nodes
  {
    var seat := Seat(n, s.nodes[n].currentTerm + 1);
    && s'.nodes.Keys == s.nodes.Keys && s'.net.appends == s.net.appends && n !in voters
    && s'.nodes[n] ==
         ConcludeElection(StartCampaign(s.nodes[n], n), n, seat.term, 1 + |voters|, |c.members|)
    && forall p {:trigger s'.nodes[p]} :: p in s.nodes && p != n ==>
         s'.nodes[p] == if p in voters then Voter(s.nodes[p], seat) else s.nodes[p]
  }

  ghost predicate WouldVote(s: Cluster, n: NodeId, p: NodeId) {
    && n in s.nodes && p in s.nodes && p != n && s.nodes[p].currentTerm <= s.nodes[n].currentTerm
    && UpToDate(LastTerm(s.nodes[n].log), LastIndex(s.nodes[n].log), s.nodes[p].log)
  }

  /** A node campaigns, skips the first peers, is voted for by the next and wins. */
  lemma Elect(c: Config, r: Run, n: NodeId, silent: nat, willing: seq<NodeId>) returns (r': Run)
    requires Going(c, r) && n in Last(c, r).nodes && 1 + |willing| > |c.members| / 2
    requires silent + |willing| <= |Without(c.members, n)|
    requires willing == Without(c.members, n)[silent..silent + |willing|]
    requires forall p :: p in willing ==> WouldVote(Last(c, r), n, p)
    ensures Going(c, r') && Elected(c, Last(c, r), Last(c, r'), n, willing)
  {
    var s := Last(c, r);
    var seat := Seat(n, s.nodes[n].currentTerm + 1);
    PeersInOrder(c.members, n);
    assert n !in willing;
    r' := Campaign(c, r, n);
    r' := SkipSome(c, r', seat, silent);
    ReadyToAsk(c, s, Last(c, r'), n, silent, willing);
    var polled := AskAll(c, r', seat, willing);
    var done := SkipSome(c, polled, seat, |Last(c, polled).elections[seat].remaining|);
    Polled(c, s, Last(c, r'), Last(c, done), n, willing);
    r' := Finish(c, done, seat);
    Concluded(c, s, Last(c, done), Last(c, r'), n, willing);
  }

  /** All but the end of the election: the candidate campaigns, its voters have followed. */
  ghost predicate Campaigned(s: Cluster, s': Cluster, n: NodeId, voters: seq<NodeId>)
    requires n in s.nodes
  {
    var seat := Seat(n, s.nodes[n].currentTerm + 1);
    && s'.nodes.Keys == s.nodes.Keys && s'.net.appends == s.net.appends && n !in voters
    && s'.nodes[n] == StartCampaign(s.nodes[n], n)
    && forall p {:trigger s'.nodes[p]} :: p in s.nodes && p != n ==>
         s'.nodes[p] == if p in voters then Voter(s.nodes[p], seat) else s.nodes[p]
  }

  lemma Polled(c: Config, s: Cluster, asked: Cluster, s': Cluster, n: NodeId, voters: seq<NodeId>)
    requires n in s.nodes && asked.nodes == s.nodes[n := StartCampaign(s.nodes[n], n)]
    requires asked.net.appends == s.net.appends && n !in voters
    requires VotesCast(asked, s', Seat(n, s.nodes[n].currentTerm + 1), voters)
    ensures Campaigned(s, s', n, voters)
  {
  }

  lemma Concluded(c: Config, s: Cluster, polled: Cluster, s': Cluster, n: NodeId, voters: seq<NodeId>)
    requires n in s.nodes && Campaigned(s, polled, n, voters) && s'.net == polled.net
    requires s'.nodes == polled.nodes[n :=
      ConcludeElection(polled.nodes[n], n, s.nodes[n].currentTerm + 1, 1 + |voters|, |c.members|)]
    ensures Elected(c, s, s', n, voters)
  {
  }

  lemma ReadyToAsk(c: Config, s: Cluster, s': Cluster, n: NodeId, silent: nat, willing: seq<NodeId>)
    requires n in s.nodes && s'.nodes == s.nodes[n := StartCampaign(s.nodes[n], n)]
    requires Distinct(Without(c.members, n)) && silent + |willing| <= |Without(c.members, n)|
    requires willing == Without(c.members, n)[silent..silent + |willing|]
    requires forall p :: p in willing ==> WouldVote(s, n, p)
    requires var seat := Seat(n, s.nodes[n].currentTerm + 1);
             && seat in s'.elections && s'.elections[seat].remaining == Without(c.members, n)[silent..]
             && s'.elections[seat].lastIndex == LastIndex(s.nodes[n].log)
             && s'.elections[seat].lastTerm == LastTerm(s.nodes[n].log)
    ensures Contested(s', Seat(n, s.nodes[n].currentTerm + 1), willing)
  {
    assert forall p :: p in willing ==> WouldVote(s, n, p) && p in s'.nodes && s'.nodes[p] == s.nodes[p];
  }

  // ------------------------------------------------------------------ replication

  ghost predicate InFlight(s: Cluster, p: NodeId, args: AppendArgs) {
    exists m {:trigger m in s.net.appends} :: m in s.net.appends && m.to == p && m.args == args
  }

  ghost predicate AllInFlight(s: Cluster, ps: seq<NodeId>, args: AppendArgs) {
    forall p {:trigger InFlight(s, p, args)} :: p in ps ==> InFlight(s, p, args)
  }

  /** A leader of the given log, in the cluster. */
  ghost predicate Leading(c: Config, s: Cluster, n: NodeId, log: Log, start: nat, acked: set<NodeId>) {
    n in s.nodes && Leads(s.nodes[n], |c.members|, log, start, acked)
  }

  ghost predicate ArePeers(c: Config, n: NodeId, ps: seq<NodeId>) {
    Distinct(ps) && forall p :: p in ps ==> p in Peers(c, n)
  }

  /** The leader sends to each peer on the list. */
  lemma {:induction false} SendAll(c: Config, r: Run, n: NodeId, log: Log, start: nat, ps: seq<NodeId>) returns (r': Run)
    requires Going(c, r) && Leading(c, Last(c, r), n, log, start, {}) && ArePeers(c, n, ps)
    ensures Going(c, r') && Last(c, r').nodes == Last(c, r).nodes
    ensures Last(c, r).net.appends <= Last(c, r').net.appends
    ensures AllInFlight(Last(c, r'), ps, Whole(n, Last(c, r).nodes[n], start))
    decreases |ps|
  {
    r' := r;
    if ps != [] {
      var args, m := Whole(n, Last(c, r).nodes[n], start), *;
      assert ps[0] in ps && ps == [ps[0]] + ps[1..];
      r', m := Send(c, r, n, ps[0]);
      assert m.args == args;
      var sent := Last(c, r');
      r' := SendAll(c, r', n, log, start, ps[1..]);
      assert m in Last(c, r').net.appends;
      assert InFlight(Last(c, r'), ps[0], args);
    }
  }

  /** One peer is sent the log from `start` on, accepts it, and is counted. */
  lemma Replicate(c: Config, r: Run, n: NodeId, p: NodeId, log: Log, start: nat, acked: set<NodeId>) returns (r': Run)
    requires Going(c, r) && Leading(c, Last(c, r), n, log, start, acked) && p in Peers(c, n) && p !in acked
    requires 1 + |acked| <= |c.members| / 2 && start < |log|
    requires p in Last(c, r).nodes && Last(c, r).nodes[p].currentTerm <= Last(c, r).nodes[n].currentTerm
    requires var args := Whole(n, Last(c, r).nodes[n], start);
             AcceptsAppend(Last(c, r).nodes[p].log, args.prevIndex, args.prevTerm)
    ensures Going(c, r') && Leading(c, Last(c, r'), n, log, start, acked + {p})
    ensures Last(c, r).net.appends <= Last(c, r').net.appends
    ensures var s, s' := Last(c, r), Last(c, r');
            && s'.nodes == s.nodes[p := HandleAppendEntries(s.nodes[p], Whole(n, s.nodes[n], start))][n := s'.nodes[n]]
            && s'.nodes[n].currentTerm == s.nodes[n].currentTerm
  {
    var s, m, reply := Last(c, r), *, *;
    r', m := Send(c, r, n, p);
    assert m.args == Whole(n, s.nodes[n], start);
    Takes(s.nodes[p], m.args);
    r', reply := Deliver(c, r', m);
    AnswerCounts(s.nodes[n], |c.members|, log, start, acked, n, p);
    r' := Acknowledge(c, r', reply);
  }

  /** The append that carries the log from `start` on, before anything is committed. */
  function Batch(n: NodeId, term: nat, log: Log, start: nat): AppendArgs
    requires start <= |log|
  {
    AppendArgs(term, n, start - 1, if start > 0 then log[start - 1].term else 0, log[start..], -1)
  }

  /** Those in the list have handled the append; nobody else but n has changed. */
  ghost predicate Handled(s: Cluster, s': Cluster, n: NodeId, ps: seq<NodeId>, args: AppendArgs) {
    && s'.nodes.Keys == s.nodes.Keys && s.net.appends <= s'.net.appends
    && forall q {:trigger s'.nodes[q]} :: q in s.nodes && q != n ==>
         s'.nodes[q] == if q in ps then HandleAppendEntries(s.nodes[q], args) else s.nodes[q]
  }

  ghost predicate WouldAccept(s: Cluster, n: NodeId, p: NodeId, args: AppendArgs) {
    && p in s.nodes && p != n && s.nodes[p].currentTerm <= args.term
    && AcceptsAppend(s.nodes[p].log, args.prevIndex, args.prevTerm)
  }

  lemma StillAccept(c: Config, s: Cluster, s': Cluster, n: NodeId, ps: seq<NodeId>, args: AppendArgs)
    requires ps != [] && ArePeers(c, n, ps) && ps[0] in s.nodes && n in s'.nodes
    requires s'.nodes == s.nodes[ps[0] := HandleAppendEntries(s.nodes[ps[0]], args)][n := s'.nodes[n]]
    requires forall p :: p in ps ==> WouldAccept(s, n, p, args)
    ensures ArePeers(c, n, ps[1..])
    ensures forall p :: p in ps[1..] ==> p != ps[0] && WouldAccept(s', n, p, args)
  {
    assert ps == [ps[0]] + ps[1..];
    assert forall p :: p in ps[1..] ==> p in ps && p != ps[0] && WouldAccept(s, n, p, args);
  }

  lemma HandledOneMore(s: Cluster, mid: Cluster, s': Cluster, n: NodeId, ps: seq<NodeId>, args: AppendArgs)
    requires Distinct(ps) && ps != [] && ps[0] in s.nodes && n in s.nodes && n != ps[0] && n in mid.nodes
    requires mid.nodes == s.nodes[ps[0] := HandleAppendEntries(s.nodes[ps[0]], args)][n := mid.nodes[n]]
    requires s.net.appends <= mid.net.appends && Handled(mid, s', n, ps[1..], args)
    ensures Handled(s, s', n, ps, args)
  {
    assert ps == [ps[0]] + ps[1..];
    assert ps[0] !in ps[1..];
  }

  function Listed(ps: seq<NodeId>): set<NodeId> {
    set p | p in ps
  }

  lemma ListedOneMore(acked: set<NodeId>, ps: seq<NodeId>)
    requires ps != []
    ensures acked + {ps[0]} + Listed(ps[1..]) == acked + Listed(ps)
  {
    assert ps == [ps[0]] + ps[1..];
  }

  lemma ListedSize(ps: seq<NodeId>)
    requires Distinct(ps)
    ensures {} + Listed(ps) == Listed(ps) && |Listed(ps)| == |ps|
  {
    MemberCount(Config(ps));
    assert Listed(ps) == Config(ps).Nodes();
  }

  /** Every peer on the list is sent the log, accepts it, and is counted. */
  lemma {:induction false} ReplicateAll(
    c: Config, r: Run, n: NodeId, term: nat, log: Log, start: nat, acked: set<NodeId>, ps: seq<NodeId>)
    returns (r': Run)
    requires Going(c, r) && Leading(c, Last(c, r), n, log, start, acked) && ArePeers(c, n, ps)
    requires start < |log| && Last(c, r).nodes[n].currentTerm == term
    requires |acked| + |ps| <= |c.members| / 2
    requires forall p :: p in ps ==> p !in acked && WouldAccept(Last(c, r), n, p, Batch(n, term, log, start))
    ensures Going(c, r') && Leading(c, Last(c, r'), n, log, start, acked + Listed(ps))
    ensures Handled(Last(c, r), Last(c, r'), n, ps, Batch(n, term, log, start))
    decreases |ps|
  {
    r' := r;
    if ps == [] {
      assert acked + Listed(ps) == acked;
    } else {
      var args, p, rest := Batch(n, term, log, start), ps[0], ps[1..];
      assert ps == [p] + rest && p in ps;
      assert Whole(n, Last(c, r).nodes[n], start) == args;
      var once := Replicate(c, r, n, p, log, start, acked);
      StillAccept(c, Last(c, r), Last(c, once), n, ps, args);
      r' := ReplicateAll(c, once, n, term, log, start, acked + {p}, rest);
      HandledOneMore(Last(c, r), Last(c, once), Last(c, r'), n, ps, args);
      ListedOneMore(acked, ps);
    }
  }

  /** A leader whose log nobody has acknowledged replicates it to a smallest majority, and
      commits and applies it. */
  lemma CommitWith(c: Config, r: Run, n: NodeId, term: nat, log: Log, start: nat, ps: seq<NodeId>) returns (r': Run)
    requires Going(c, r) && Leading(c, Last(c, r), n, log, start, {}) && ArePeers(c, n, ps)
    requires start < |log| && Last(c, r).nodes[n].currentTerm == term && |ps| == |c.members| / 2
    requires forall p :: p in ps ==> WouldAccept(Last(c, r), n, p, Batch(n, term, log, start))
    ensures Going(c, r') && Handled(Last(c, r), Last(c, r'), n, ps, Batch(n, term, log, start))
    ensures n in Last(c, r').nodes && Applies(Last(c, r').nodes[n], log)
  {
    r' := ReplicateAll(c, r, n, term, log, start, {}, ps);
    ListedSize(ps);
    assert Leading(c, Last(c, r'), n, log, start, Listed(ps));
  }

  ghost predicate Applies(node: Node, log: Log) {
    node.log == log && log != [] && node.currentTerm == log[|log| - 1].term
    && node.commitIndex == |log| - 1 && node.stateMachine == Payloads(log)
  }

  /** Every peer on the list handles an append that is in flight. */
  lemma {:induction false} DeliverAll(c: Config, r: Run, n: NodeId, ps: seq<NodeId>, args: AppendArgs) returns (r': Run)
    requires Going(c, r) && AllInFlight(Last(c, r), ps, args) && Distinct(ps)
    requires n in Last(c, r).nodes && n !in ps && forall p :: p in ps ==> p in Last(c, r).nodes
    ensures Going(c, r') && Handled(Last(c, r), Last(c, r'), n, ps, args)
    ensures Last(c, r').nodes[n] == Last(c, r).nodes[n]
    decreases |ps|
  {
    r' := r;
    if ps != [] {
      var reply, rest := *, ps[1..];
      assert ps == [ps[0]] + rest && ps[0] !in rest;
      assert InFlight(Last(c, r), ps[0], args);
      var m :| m in Last(c, r).net.appends && m.to == ps[0] && m.args == args;
      r', reply := Deliver(c, r, m);
      forall p | p in rest
        ensures InFlight(Last(c, r'), p, args)
      {
        assert InFlight(Last(c, r), p, args);
      }
      var once := r';
      r' := DeliverAll(c, once, n, rest, args);
    }
  }

  // ---------------------------------------------------------------- the cluster

  function First(c: Config): NodeId
    requires |c.members| >= 3
  {
    c.members[0]
  }

  function Second(c: Config): NodeId
    requires |c.members| >= 3
  {
    c.members[1]
  }

  /** With the first node, the smallest majority. The second node is one of them. */
  function Group(c: Config): seq<NodeId>
    requires |c.members| >= 3
  {
    c.members[1..|c.members| / 2 + 1]
  }

  function Rest(c: Config): seq<NodeId>
    requires |c.members| >= 3
  {
    c.members[|c.members| / 2 + 1..]
  }

  /** Those whose votes and acknowledgements the second node needs and gets. */
  function Voters(c: Config): seq<NodeId>
    requires |c.members| >= 3
  {
    c.members[2..]
  }

  function Audience(c: Config): seq<NodeId>
    requires |c.members| >= 3
  {
    [c.members[0]] + c.members[2..|c.members| / 2 + 1]
  }

  lemma {:induction false} WithoutAbsent(members: seq<NodeId>, n: NodeId)
    requires n !in members
    ensures Without(members, n) == members
  {
    if members != [] {
      WithoutAbsent(members[1..], n);
    }
  }

  lemma AskingOrder(c: Config)
    requires c.Valid() && |c.members| >= 3
    ensures Without(c.members, First(c)) == c.members[1..]
    ensures Without(c.members, Second(c)) == [First(c)] + Voters(c)
  {
    var tail := c.members[1..];
    assert tail[1..] == Voters(c);
    WithoutAbsent(tail, First(c));
    WithoutAbsent(Voters(c), Second(c));
    assert Without(tail, Second(c)) == Voters(c);
  }

  lemma GroupPeers(c: Config)
    requires c.Valid() && |c.members| >= 3
    ensures ArePeers(c, First(c), Group(c)) && ArePeers(c, Second(c), Audience(c))
    ensures Second(c) in Group(c) && First(c) in Audience(c) && First(c) != Second(c)
  {
    assert Group(c)[0] == Second(c) && Audience(c)[0] == First(c);
  }

  lemma RestPeers(c: Config)
    requires c.Valid() && |c.members| >= 3
    ensures First(c) !in Group(c)
    ensures forall p :: p in Rest(c) ==> p != First(c) && p !in Group(c) && p in c.Nodes()
  {
  }

  lemma AudienceMember(c: Config, p: NodeId)
    requires c.Valid() && |c.members| >= 3 && p in Audience(c)
    ensures p == First(c) || p in Group(c)
  {
    if p != First(c) {
      var half, group := |c.members| / 2, Group(c);
      var i :| 2 <= i <= half && c.members[i] == p;
      assert group[i - 1] == c.members[1..half + 1][i - 1] == c.members[i];
    }
  }

  lemma VoterMember(c: Config, p: NodeId)
    requires c.Valid() && |c.members| >= 3 && p in Voters(c)
    ensures p != First(c) && p != Second(c) && (p in Group(c) || p in Rest(c))
  {
    var half, group, rest := |c.members| / 2, Group(c), Rest(c);
    var i :| 2 <= i < |c.members| && c.members[i] == p;
    assert |group| == half && |rest| == |c.members| - half - 1;
    if i <= half {
      assert group[i - 1] == c.members[1..half + 1][i - 1] == c.members[i];
    } else {
      assert rest[i - half - 1] == c.members[half + 1..][i - half - 1] == c.members[i];
    }
  }

  lemma Lists(c: Config)
    requires c.Valid() && |c.members| >= 3
    ensures ArePeers(c, First(c), Group(c)) && ArePeers(c, Second(c), Audience(c))
    ensures Second(c) in Group(c) && First(c) in Audience(c) && First(c) != Second(c)
    ensures forall p :: p in Audience(c) ==> p == First(c) || p in Group(c)
    ensures forall p :: p in Voters(c) ==> p != First(c) && p != Second(c) && (p in Group(c) || p in Rest(c))
    ensures forall p :: p in Rest(c) ==> p != First(c) && p !in Group(c) && p in c.Nodes()
  {
    GroupPeers(c);
    RestPeers(c);
    forall p | p in Voters(c)
      ensures p != First(c) && p != Second(c) && (p in Group(c) || p in Rest(c))
    {
      VoterMember(c, p);
    }
    forall p | p in Audience(c)
      ensures p == First(c) || p in Group(c)
    {
      AudienceMember(c, p);
    }
  }

  // ------------------------------------------------------------------ the leaders

  ghost predicate NewLeader(node: Node, term: nat, log: Log) {
    && node.role == Leader && Fresh(node, term, log) && node.nextIndex.Keys == node.matchIndex.Keys
    && (forall p {:trigger node.nextIndex[p]} :: p in node.nextIndex ==> node.nextIndex[p] == |log|)
    && (forall p {:trigger node.matchIndex[p]} :: p in node.matchIndex ==> node.matchIndex[p] == -1)
  }

  lemma WinnerLeads(c: Config, s: Cluster, s': Cluster, n: NodeId, voters: seq<NodeId>, term: nat, log: Log)
    requires n in s.nodes && n in s'.nodes && Elected(c, s, s', n, voters) && 1 + |voters| > |c.members| / 2
    requires Fresh(s.nodes[n], term, log) && KnowsPeers(c, n, s.nodes[n])
    ensures NewLeader(s'.nodes[n], term + 1, log)
  {
  }

  lemma ProposerLeads(node: Node, size: nat, term: nat, log: Log, data: Data)
    requires NewLeader(node, term, log) && size >= 2
    ensures Leads(Propose(node, data), size, log + [Entry(term, data)], |log|, {})
  {
  }

  lemma ProposerStillLeads(node: Node, size: nat, log: Log, start: nat, data: Data)
    requires Leads(node, size, log, start, {}) && size >= 2
    ensures Leads(Propose(node, data), size, log + [Entry(node.currentTerm, data)], start, {})
  {
  }

  ghost predicate AllFresh(s: Cluster, ps: seq<NodeId>, term: nat, log: Log) {
    forall p :: p in ps ==> p in s.nodes && Fresh(s.nodes[p], term, log)
  }

  // ------------------------------------------------------------------------ the run

  /** Nobody has done anything yet. */
  lemma Idle(c: Config) returns (r: Run)
    requires c.Valid() && |c.members| >= 3
    ensures Going(c, r) && First(c) in Last(c, r).nodes && Fresh(Last(c, r).nodes[First(c)], 0, [])
    ensures AllFresh(Last(c, r), Group(c), 0, []) && AllFresh(Last(c, r), Rest(c), 0, [])
  {
    r := Begin(c);
    Lists(c);
    assert First(c) in c.Nodes();
  }

  /** Voters follow the winner with the logs they had; the others stay as they were. */
  lemma ElectionKeeps(c: Config, s: Cluster, s': Cluster, n: NodeId, voters: seq<NodeId>, ps: seq<NodeId>, term: nat, log: Log)
    requires n in s.nodes && Elected(c, s, s', n, voters) && AllFresh(s, ps, term, log) && n !in ps
    ensures (forall p :: p in ps ==> p in voters) ==> AllFresh(s', ps, s.nodes[n].currentTerm + 1, log)
    ensures (forall p :: p in ps ==> p !in voters) ==> AllFresh(s', ps, term, log)
  {
  }

  lemma ElectFirst(c: Config, r: Run) returns (r': Run)
    requires c.Valid() && |c.members| >= 3 && Going(c, r) && First(c) in Last(c, r).nodes
    requires Fresh(Last(c, r).nodes[First(c)], 0, []) && AllFresh(Last(c, r), Group(c), 0, [])
    ensures Going(c, r') && Elected(c, Last(c, r), Last(c, r'), First(c), Group(c))
  {
    AskingOrder(c);
    Lists(c);
    forall p | p in Group(c)
      ensures WouldVote(Last(c, r), First(c), p)
    {
      assert Fresh(Last(c, r).nodes[p], 0, []);
    }
    r' := Elect(c, r, First(c), 0, Group(c));
  }

  lemma FirstElected(c: Config, s: Cluster, s': Cluster)
    requires c.Valid() && |c.members| >= 3 && TypeOk(c, s) && First(c) in s.nodes
    requires Elected(c, s, s', First(c), Group(c)) && Fresh(s.nodes[First(c)], 0, [])
    requires AllFresh(s, Group(c), 0, []) && AllFresh(s, Rest(c), 0, [])
    ensures First(c) in s'.nodes && NewLeader(s'.nodes[First(c)], 1, [])
    ensures AllFresh(s', Group(c), 1, []) && AllFresh(s', Rest(c), 0, [])
  {
    var n := First(c);
    RestPeers(c);
    assert KnowsPeers(c, n, s.nodes[n]);
    WinnerLeads(c, s, s', n, Group(c), 0, []);
    ElectionKeeps(c, s, s', n, Group(c), Group(c), 0, []);
    ElectionKeeps(c, s, s', n, Group(c), Rest(c), 0, []);
  }

  /** The first node wins term 1 by the votes of its group. */
  lemma FirstElection(c: Config, r: Run) returns (r': Run)
    requires c.Valid() && |c.members| >= 3 && Going(c, r) && First(c) in Last(c, r).nodes
    requires Fresh(Last(c, r).nodes[First(c)], 0, [])
    requires AllFresh(Last(c, r), Group(c), 0, []) && AllFresh(Last(c, r), Rest(c), 0, [])
    ensures Going(c, r') && First(c) in Last(c, r').nodes && NewLeader(Last(c, r').nodes[First(c)], 1, [])
    ensures AllFresh(Last(c, r'), Group(c), 1, []) && AllFresh(Last(c, r'), Rest(c), 0, [])
  {
    r' := ElectFirst(c, r);
    FirstElected(c, Last(c, r), Last(c, r'));
  }

  /** The append that will be stale. */
  function Stale(c: Config): AppendArgs
    requires |c.members| >= 3
  {
    Batch(First(c), 1, SHORT, 0)
  }

  ghost predicate StaleInFlight(c: Config, s: Cluster)
    requires |c.members| >= 3
  {
    First(c) in s.nodes && AllInFlight(s, Group(c), Stale(c)) && AllFresh(s, Rest(c), 0, [])
  }

  /** It takes two entries, and sends the first to its group before it takes the second. */
  lemma TwoEntries(c: Config) returns (r: Run)
    requires c.Valid() && |c.members| >= 3
    ensures Going(c, r) && StaleInFlight(c, Last(c, r)) && AllFresh(Last(c, r), Group(c), 1, [])
    ensures Leading(c, Last(c, r), First(c), FIRST, 0, {}) && Last(c, r).nodes[First(c)].currentTerm == 1
  {
    var n, size := First(c), |c.members|;
    r := Idle(c);
    r := FirstElection(c, r);
    Lists(c);
    ProposerLeads(Last(c, r).nodes[n], size, 1, [], A);
    r := SubmitEntry(c, r, n, A);
    assert [] + [Entry(1, A)] == SHORT;
    var node := Last(c, r).nodes[n];
    r := SendAll(c, r, n, SHORT, 0, Group(c));
    assert Whole(n, node, 0) == Stale(c);
    ProposerStillLeads(node, size, SHORT, 0, B);
    assert SHORT + [Entry(1, B)] == FIRST;
    var sent := Last(c, r);
    r := SubmitEntry(c, r, n, B);
    assert AllInFlight(Last(c, r), Group(c), Stale(c)) by {
      StillInFlight(sent, Last(c, r), Group(c), Stale(c));
    }
  }

  lemma StillInFlight(s: Cluster, s': Cluster, ps: seq<NodeId>, args: AppendArgs)
    requires AllInFlight(s, ps, args) && s.net.appends <= s'.net.appends
    ensures AllInFlight(s', ps, args)
  {
    forall p | p in ps
      ensures InFlight(s', p, args)
    {
      assert InFlight(s, p, args);
      var m :| m in s.net.appends && m.to == p && m.args == args;
      assert m in s'.net.appends;
    }
  }

  /** Those who handle a batch without commit have its log. */
  lemma BatchTaken(s: Cluster, s': Cluster, n: NodeId, ps: seq<NodeId>, args: AppendArgs, term: nat, log: Log)
    requires Handled(s, s', n, ps, args) && n !in ps && AllFresh(s, ps, term, log) && term <= args.term
    requires args.prevIndex == -1 && args.entries != [] && args.leaderCommit == -1
    ensures AllFresh(s', ps, args.term, args.entries)
  {
    forall p | p in ps
      ensures p in s'.nodes && Fresh(s'.nodes[p], args.term, args.entries)
    {
      Takes(s.nodes[p], args);
      assert s.nodes[p].log[..0] + args.entries == args.entries;
    }
  }

  lemma Untouched(s: Cluster, s': Cluster, n: NodeId, ps: seq<NodeId>, args: AppendArgs, others: seq<NodeId>)
    requires Handled(s, s', n, ps, args) && AllFresh(s, others, 0, [])
    requires forall p :: p in others ==> p != n && p !in ps
    ensures AllFresh(s', others, 0, [])
  {
  }

  lemma GroupAccepts(s: Cluster, n: NodeId, ps: seq<NodeId>, args: AppendArgs, term: nat, log: Log)
    requires AllFresh(s, ps, term, log) && n !in ps && term <= args.term
    requires AcceptsAppend(log, args.prevIndex, args.prevTerm)
    ensures forall p :: p in ps ==> WouldAccept(s, n, p, args)
  {
  }

  /** Both entries reach the group, which is enough to commit them. */
  lemma CommitTwo(c: Config, r: Run) returns (r': Run)
    requires c.Valid() && |c.members| >= 3
    requires Going(c, r) && StaleInFlight(c, Last(c, r)) && AllFresh(Last(c, r), Group(c), 1, [])
    requires Leading(c, Last(c, r), First(c), FIRST, 0, {}) && Last(c, r).nodes[First(c)].currentTerm == 1
    ensures Going(c, r') && StaleInFlight(c, Last(c, r')) && AllFresh(Last(c, r'), Group(c), 1, FIRST)
    ensures Applies(Last(c, r').nodes[First(c)], FIRST)
  {
    var n, s, batch := First(c), Last(c, r), Batch(First(c), 1, FIRST, 0);
    Lists(c);
    GroupAccepts(s, n, Group(c), batch, 1, []);
    r' := CommitWith(c, r, n, 1, FIRST, 0, Group(c));
    BatchTaken(s, Last(c, r'), n, Group(c), batch, 1, []);
    Untouched(s, Last(c, r'), n, Group(c), batch, Rest(c));
    StillInFlight(s, Last(c, r'), Group(c), Stale(c));
  }

  /** The stale appends cut the group's logs back. */
  lemma CutBack(c: Config, r: Run) returns (r': Run)
    requires c.Valid() && |c.members| >= 3
    requires Going(c, r) && StaleInFlight(c, Last(c, r)) && AllFresh(Last(c, r), Group(c), 1, FIRST)
    ensures Going(c, r') && AllFresh(Last(c, r'), Group(c), 1, SHORT) && AllFresh(Last(c, r'), Rest(c), 0, [])
    ensures First(c) in Last(c, r').nodes && Last(c, r').nodes[First(c)] == Last(c, r).nodes[First(c)]
  {
    var n, s := First(c), Last(c, r);
    Lists(c);
    r' := DeliverAll(c, r, n, Group(c), Stale(c));
    BatchTaken(s, Last(c, r'), n, Group(c), Stale(c), 1, FIRST);
    Untouched(s, Last(c, r'), n, Group(c), Stale(c), Rest(c));
  }

  lemma AllWouldVote(c: Config, s: Cluster)
    requires c.Valid() && |c.members| >= 3
    requires AllFresh(s, Group(c), 1, SHORT) && AllFresh(s, Rest(c), 0, [])
    ensures forall p :: p in Voters(c) ==> WouldVote(s, Second(c), p)
  {
    Lists(c);
    forall p | p in Voters(c)
      ensures WouldVote(s, Second(c), p)
    {
      assert p in Group(c) ==> Fresh(s.nodes[p], 1, SHORT);
      assert p in Rest(c) ==> Fresh(s.nodes[p], 0, []);
    }
  }

  /** Those who vote for the second node accept its entry afterwards, and so does the
      first, which was not asked. */
  lemma AudienceAccepts(c: Config, s: Cluster, s': Cluster, batch: AppendArgs)
    requires c.Valid() && |c.members| >= 3 && First(c) in s.nodes && Second(c) in s.nodes
    requires AllFresh(s, Group(c), 1, SHORT) && Elected(c, s, s', Second(c), Voters(c))
    requires s.nodes[First(c)].log == FIRST && s.nodes[First(c)].currentTerm == 1
    requires batch.prevIndex == 0 && batch.prevTerm == 1 && batch.term == 2
    ensures forall p :: p in Audience(c) ==> WouldAccept(s', Second(c), p, batch)
    ensures s'.nodes[First(c)] == s.nodes[First(c)]
  {
    Lists(c);
    forall p | p in Audience(c)
      ensures WouldAccept(s', Second(c), p, batch)
    {
      assert p != First(c) ==> Fresh(s.nodes[p], 1, SHORT);
    }
  }

  /** The second node wins term 2 without the entry that has been committed. */
  lemma SecondElection(c: Config, r: Run, batch: AppendArgs) returns (r': Run)
    requires c.Valid() && |c.members| >= 3 && Going(c, r) && First(c) in Last(c, r).nodes
    requires AllFresh(Last(c, r), Group(c), 1, SHORT) && AllFresh(Last(c, r), Rest(c), 0, [])
    requires Last(c, r).nodes[First(c)].log == FIRST && Last(c, r).nodes[First(c)].currentTerm == 1
    requires batch.prevIndex == 0 && batch.prevTerm == 1 && batch.term == 2
    ensures Going(c, r') && Second(c) in Last(c, r').nodes && NewLeader(Last(c, r').nodes[Second(c)], 2, SHORT)
    ensures forall p :: p in Audience(c) ==> WouldAccept(Last(c, r'), Second(c), p, batch)
    ensures First(c) in Last(c, r').nodes && Last(c, r').nodes[First(c)] == Last(c, r).nodes[First(c)]
  {
    var n, s := Second(c), Last(c, r);
    AskingOrder(c);
    Lists(c);
    AllWouldVote(c, s);
    assert KnowsPeers(c, n, s.nodes[n]);
    r' := Elect(c, r, n, 1, Voters(c));
    AudienceAccepts(c, s, Last(c, r'), batch);
    WinnerLeads(c, s, Last(c, r'), n, Voters(c), 1, SHORT);
  }

  /** The new leader's own entry replaces the committed one at the first node, and is
      committed and applied at the second. */
  lemma Diverge(c: Config, r: Run, batch: AppendArgs) returns (r': Run)
    requires c.Valid() && |c.members| >= 3 && Going(c, r) && batch == Batch(Second(c), 2, SECOND, 1)
    requires Second(c) in Last(c, r).nodes && NewLeader(Last(c, r).nodes[Second(c)], 2, SHORT)
    requires forall p :: p in Audience(c) ==> WouldAccept(Last(c, r), Second(c), p, batch)
    requires First(c) in Last(c, r).nodes
    ensures Going(c, r') && First(c) in Last(c, r').nodes && Second(c) in Last(c, r').nodes
    ensures Last(c, r').nodes[First(c)].stateMachine == Last(c, r).nodes[First(c)].stateMachine
    ensures Last(c, r').nodes[Second(c)].stateMachine == Payloads(SECOND)
  {
    var n, first := Second(c), Last(c, r).nodes[First(c)];
    Lists(c);
    ProposerLeads(Last(c, r).nodes[n], |c.members|, 2, SHORT, C);
    assert SHORT + [Entry(2, C)] == SECOND;
    var taken := SubmitEntry(c, r, n, C);
    var s := Last(c, taken);
    assert forall p :: p in Audience(c) ==> WouldAccept(Last(c, r), n, p, batch) && WouldAccept(s, n, p, batch);
    r' := CommitWith(c, taken, n, 2, SECOND, 1, Audience(c));
    Takes(first, batch);
  }

  /** Any two nodes' applied data, at any two moments, are prefix-comparable. */
  ghost predicate AppliesOneSequence(r: Run) {
    forall i: nat, j: nat, a, b {:trigger r.states[i].nodes[a], r.states[j].nodes[b]} ::
      i < |r.states| && j < |r.states| && a in r.states[i].nodes && b in r.states[j].nodes ==>
        Comparable(r.states[i].nodes[a].stateMachine, r.states[j].nodes[b].stateMachine)
  }

  /** State Machine Safety fails without the ordering assumption, in every cluster of
      three or more nodes. */
  lemma ReorderedAppendsBreakSafety(c: Config) returns (r: Run)
    requires c.Valid() && |c.members| >= 3
    ensures IsRun(c, r) && !InOrder(r) && !AppliesOneSequence(r)
  {
    var batch := Batch(Second(c), 2, SECOND, 1);
    r := TwoEntries(c);
    r := CommitTwo(c, r);
    r := CutBack(c, r);
    r := SecondElection(c, r, batch);
    r := Diverge(c, r, batch);
    Diverged(c, r, First(c), Second(c));
  }

  lemma Diverged(c: Config, r: Run, a: NodeId, b: NodeId)
    requires Going(c, r) && a in Last(c, r).nodes && b in Last(c, r).nodes
    requires Last(c, r).nodes[a].stateMachine == Payloads(FIRST)
    requires Last(c, r).nodes[b].stateMachine == Payloads(SECOND)
    ensures !InOrder(r) && !AppliesOneSequence(r)
  {
    var i := |r.steps|;
    assert Payloads(FIRST)[1] == B && Payloads(SECOND)[1] == C && B.text != C.text;
    assert !Comparable(r.states[i].nodes[a].stateMachine, r.states[i].nodes[b].stateMachine);
    if InOrder(r) {
      StateMachineSafety(c, r, i, i, a, b);
    }
  }
}
