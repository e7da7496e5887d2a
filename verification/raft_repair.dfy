/** Log repair: answered append rounds from one leader to one follower back up
    next_index until an append is accepted, and then the follower has the leader's log. */
module RaftRepair {
  import opened Common
  import opened RaftNode
  import opened RaftCluster
  import opened RaftInvariant
  import opened RaftPreservation
  import opened RaftTheorems
  import opened RaftRuns

  /** Log matching between two logs. */
  ghost predicate Compatible(a: Log, b: Log) {
    forall k {:trigger a[k], b[k]} :: 0 <= k < |a| && k < |b| && a[k].term == b[k].term ==> a[..k + 1] == b[..k + 1]
  }

  /** The length of the longest common prefix. */
  function CommonPrefix(a: Log, b: Log): (k: nat)
    ensures k <= |a| && k <= |b| && a[..k] == b[..k]
    ensures k < |a| && k < |b| ==> a[k] != b[k]
  {
    if |a| > 0 && |b| > 0 && a[0] == b[0] then
      var k := CommonPrefix(a[1..], b[1..]);
      assert a[..k + 1] == [a[0]] + a[1..][..k] && b[..k + 1] == [b[0]] + b[1..][..k];
      k + 1
    else 0
  }

  lemma CommonPrefixIs(a: Log, b: Log, k: nat)
    requires k <= |a| && k <= |b| && a[..k] == b[..k]
    requires k < |a| && k < |b| ==> a[k] != b[k]
    ensures CommonPrefix(a, b) == k
  {
    EqualUpTo(a, b, k);
    EqualUpTo(a, b, CommonPrefix(a, b));
  }

  lemma EqualUpTo(a: Log, b: Log, k: nat)
    requires k <= |a| && k <= |b| && a[..k] == b[..k]
    ensures forall i {:trigger a[i]} {:trigger b[i]} :: 0 <= i < k ==> a[i] == b[i]
  {
    forall i | 0 <= i < k
      ensures a[i] == b[i]
    {
      assert a[..k][i] == b[..k][i];
    }
  }

  /** One answered round: the append, the follower's handling, the leader's reaction. */
  datatype Round = Round(sent: AppendArgs, success: bool, leader: Node, follower: Node)

  function Exchange(leader: Node, follower: Node, self: NodeId, peer: NodeId, size: nat): Round
    requires peer in leader.nextIndex
  {
    var sent := BuildAppend(leader, self, peer);
    var success := AppendSucceeds(follower, sent);
    var follower' := HandleAppendEntries(follower, sent);
    Round(sent, success, HandleAppendReply(leader, peer, sent, follower'.currentTerm, success, size), follower')
  }

  /** A leader and a peer whose term is not ahead, with matching logs. */
  ghost predicate Repairable(leader: Node, follower: Node, peer: NodeId) {
    && leader.role == Leader && follower.currentTerm <= leader.currentTerm
    && peer in leader.nextIndex && leader.nextIndex[peer] <= |leader.log|
    && Compatible(leader.log, follower.log)
  }

  /** The leader knows that the peer has its whole log, and will send nothing more. */
  ghost predicate CaughtUp(leader: Node, peer: NodeId) {
    && peer in leader.matchIndex && leader.matchIndex[peer] == LastIndex(leader.log)
    && peer in leader.nextIndex && leader.nextIndex[peer] == |leader.log|
  }

  /** A round fails exactly when next_index points past the common prefix. A failed round
      backs up by one and leaves the common prefix; a successful one leaves the follower
      with the leader's log, and the leader knowing it, when it carried entries. */
  lemma RoundOutcome(leader: Node, follower: Node, self: NodeId, peer: NodeId, size: nat)
    requires Repairable(leader, follower, peer)
    ensures var r := Exchange(leader, follower, self, peer, size);
            var next, common := leader.nextIndex[peer], CommonPrefix(leader.log, follower.log);
            && (r.success <==> next <= common)
            && r.leader.role == Leader && r.leader.log == leader.log && r.leader.currentTerm == leader.currentTerm
            && (!r.success ==>
                  && Repairable(r.leader, r.follower, peer) && r.leader.commitIndex == leader.commitIndex
                  && r.leader.nextIndex[peer] == next - 1
                  && CommonPrefix(leader.log, r.follower.log) == common)
            && (r.success ==>
                  if r.sent.entries != [] then r.follower.log == leader.log && CaughtUp(r.leader, peer)
                  else r.follower.log == follower.log && leader.log <= follower.log)
  {
    var sent := BuildAppend(leader, self, peer);
    HandleAppendFields(follower, sent);
    AnswerFields(leader, peer, sent, AppendSucceeds(follower, sent), size);
    RoundLog(leader.log, follower.log, leader.nextIndex[peer]);
  }

  /** A successful round brings the follower's commit index up to the leader's, with
      entries or without. */
  lemma RoundCommits(leader: Node, follower: Node, self: NodeId, peer: NodeId, size: nat)
    requires Repairable(leader, follower, peer) && leader.commitIndex < |leader.log|
    ensures var r := Exchange(leader, follower, self, peer, size);
            r.success ==> r.follower.commitIndex >= leader.commitIndex
  {
    var sent := BuildAppend(leader, self, peer);
    HandleAppendCommit(follower, sent);
    HandleAppendFields(follower, sent);
    RoundLog(leader.log, follower.log, leader.nextIndex[peer]);
  }

  /** What an answer from a peer in the leader's own term leaves behind. */
  lemma AnswerFields(leader: Node, peer: NodeId, sent: AppendArgs, success: bool, size: nat)
    requires leader.role == Leader && sent.term == leader.currentTerm && peer in leader.nextIndex
    ensures var n' := HandleAppendReply(leader, peer, sent, sent.term, success, size);
            && n'.role == Leader && n'.log == leader.log && n'.currentTerm == leader.currentTerm
            && (success && sent.entries != [] && EndIndex(sent) == LastIndex(leader.log) ==> CaughtUp(n', peer))
            && (!success ==> n'.commitIndex == leader.commitIndex && n'.nextIndex == leader.nextIndex[peer := Max(0, leader.nextIndex[peer] as int - 1)])
  {
    CommitFields(RecordAck(leader, peer, EndIndex(sent)), size);
  }

  /** The two logs in a round that sends log a from index `next` to log b. */
  lemma RoundLog(a: Log, b: Log, next: nat)
    requires Compatible(a, b) && next <= |a|
    ensures var prevTerm, common := if next > 0 then a[next - 1].term else 0, CommonPrefix(a, b);
            var b' := LogAfterAppend(b, next - 1, prevTerm, a[next..]);
            && (AcceptsAppend(b, next - 1, prevTerm) <==> next <= common)
            && (next > common ==> Compatible(a, b') && CommonPrefix(a, b') == common)
            && (next <= common ==> if a[next..] != [] then b' == a else b' == b && a <= b)
  {
    var common := CommonPrefix(a, b);
    RoundAccepts(a, b, next, common);
    if next <= common {
      EqualUpTo(a, b, common);
      assert b[..next] == a[..next];
      assert a == a[..next] + a[next..];
    } else if next <= |b| {
      CommonPrefixIs(a, b[..next - 1], common);
      CutCompatible(a, b, next - 1);
    }
  }

  lemma RoundAccepts(a: Log, b: Log, next: nat, common: nat)
    requires Compatible(a, b) && next <= |a| && common == CommonPrefix(a, b)
    ensures (next > 0 ==> next - 1 < |b| && b[next - 1].term == a[next - 1].term) <==> next <= common
  {
    EqualUpTo(a, b, common);
    if 0 < next && next - 1 < |b| && b[next - 1].term == a[next - 1].term {
      assert a[..next - 1 + 1] == b[..next - 1 + 1];
      EqualUpTo(a, b, next);
    }
  }

  lemma CutCompatible(a: Log, b: Log, k: nat)
    requires Compatible(a, b)
    ensures k < |b| ==> Compatible(a, b[..k])
  {
    if k < |b| {
      forall i | 0 <= i < |a| && i < k && a[i].term == b[..k][i].term
        ensures a[..i + 1] == b[..k][..i + 1]
      {
        assert b[..k][..i + 1] == b[..i + 1];
      }
    }
  }

  datatype Repair = Repair(failures: nat, last: Round)

  /** Rounds until one succeeds. */
  function RunRepair(leader: Node, follower: Node, self: NodeId, peer: NodeId, size: nat): Repair
    requires Repairable(leader, follower, peer)
    decreases leader.nextIndex[peer]
  {
    RoundOutcome(leader, follower, self, peer, size);
    var r := Exchange(leader, follower, self, peer, size);
    if r.success then Repair(0, r)
    else
      var rest := RunRepair(r.leader, r.follower, self, peer, size);
      Repair(rest.failures + 1, rest.last)
  }

  /** Repair terminates and converges: it fails exactly as often as next_index exceeds
      the common prefix, hence at most next_index times, and then the leader's log is a
      prefix of the follower's, equal to it when the last append carried entries. */
  lemma {:induction false} RepairConverges(leader: Node, follower: Node, self: NodeId, peer: NodeId, size: nat)
    requires Repairable(leader, follower, peer)
    ensures var done := RunRepair(leader, follower, self, peer, size);
            var next, common := leader.nextIndex[peer], CommonPrefix(leader.log, follower.log);
            && done.failures == (if next > common then next - common else 0)
            && done.failures <= next
            && done.last.success
            && done.last.leader.log == leader.log && done.last.leader.role == Leader
            && done.last.leader.currentTerm == leader.currentTerm
            && leader.log <= done.last.follower.log
            && (leader.commitIndex < |leader.log| ==> leader.commitIndex <= done.last.follower.commitIndex)
            && (done.last.sent.entries != [] ==>
                  done.last.follower.log == leader.log && CaughtUp(done.last.leader, peer))
            && common <= CommonPrefix(leader.log, done.last.follower.log)
    decreases leader.nextIndex[peer]
  {
    RoundOutcome(leader, follower, self, peer, size);
    var r := Exchange(leader, follower, self, peer, size);
    if r.success {
      CommonPrefixIs(leader.log, r.follower.log, |leader.log|);
      if leader.commitIndex < |leader.log| {
        RoundCommits(leader, follower, self, peer, size);
      }
    } else {
      RepairConverges(r.leader, r.follower, self, peer, size);
    }
  }

  /** In every state of every run, a leader can repair any peer that is not ahead of it. */
  lemma LeadersCanRepair(c: Config, r: Run, i: nat, n: NodeId, p: NodeId)
    requires IsRun(c, r) && i <= |r.steps| && n in c.Nodes() && p in Peers(c, n)
    requires n in r.states[i].nodes && p in r.states[i].nodes && r.states[i].nodes[n].role == Leader
    requires r.states[i].nodes[p].currentTerm <= r.states[i].nodes[n].currentTerm
    ensures Repairable(r.states[i].nodes[n], r.states[i].nodes[p], p)
  {
    var a, b := r.states[i].nodes[n].log, r.states[i].nodes[p].log;
    LeaderIndexBounds(c, r, i, n, p);
    forall k | 0 <= k < |a| && k < |b| && a[k].term == b[k].term
      ensures a[..k + 1] == b[..k + 1]
    {
      LogMatching(c, r, i, i, n, p, k);
    }
  }

  // ------------------------------------------------------------- repair in a run

  /** A step of the exchange between a leader and one peer. */
  predicate RepairStep(step: Step, n: NodeId, p: NodeId) {
    match step
    case SendAppend(sender, to) => sender == n && to == p
    case HandleAppend(m) => m.args.leader == n && m.to == p
    case ReceiveAppendReply(rep) => rep.append.args.leader == n && rep.append.to == p
    case _ => false
  }

  /** The run goes on by steps of that exchange alone, and stays in order if it was. */
  ghost predicate Exchanging(r: Run, r': Run, n: NodeId, p: NodeId)
    requires |r.states| == |r.steps| + 1 && |r'.states| == |r'.steps| + 1
  {
    && Continues(r, r')
    && (forall k {:trigger r'.steps[k]} :: |r.steps| <= k < |r'.steps| ==> RepairStep(r'.steps[k], n, p))
    && (InOrder(r) ==> InOrder(r'))
  }

  ghost predicate CanRepair(c: Config, s: Cluster, n: NodeId, p: NodeId) {
    && n in s.nodes && p in s.nodes && p in Peers(c, n) && s.nodes[n].role == Leader
    && s.nodes[p].currentTerm <= s.nodes[n].currentTerm
  }

  /** An append just built from the log of the leader of its term is not overtaken. */
  lemma FreshNotOvertaken(c: Config, s: Cluster, n: NodeId, p: NodeId)
    requires Inv(c, s) && CanRepair(c, s, n, p) && p in s.nodes[n].nextIndex
    ensures !Overtaken(s.nodes[p], BuildAppend(s.nodes[n], n, p))
  {
    var node, log := s.nodes[n], s.nodes[p].log;
    assert NodeInv(s.history, n, node) && NodeInv(s.history, p, s.nodes[p]);
    assert PeerIndexInv(s.history, node, p);
    if log != [] && LastTerm(log) == node.currentTerm {
      assert EntryBacked(s.history, log, |log| - 1);
    }
  }

  lemma OneExchange(r: Run, r': Run, step: Step, n: NodeId, p: NodeId)
    requires |r.states| == |r.steps| + 1 && |r'.states| == |r'.steps| + 1
    requires Continues(r, r') && r'.steps == r.steps + [step] && RepairStep(step, n, p)
    requires InOrder(r) ==> InOrder(r')
    ensures Exchanging(r, r', n, p)
  {
  }

  lemma MoreExchange(a: Run, b: Run, d: Run, n: NodeId, p: NodeId)
    requires |a.states| == |a.steps| + 1 && |b.states| == |b.steps| + 1 && |d.states| == |d.steps| + 1
    requires Exchanging(a, b, n, p) && Exchanging(b, d, n, p)
    ensures Exchanging(a, d, n, p)
  {
    forall k | |a.steps| <= k < |d.steps|
      ensures RepairStep(d.steps[k], n, p)
    {
      if k < |b.steps| {
        assert d.steps[k] == b.steps[k];
      }
    }
  }

  lemma WrittenTwice<K, V>(m: map<K, V>, p: K, n: K, f: V, l: V, f': V, l': V)
    requires p != n
    ensures m[p := f][n := l][p := f'][n := l'] == m[p := f'][n := l']
  {
  }

  /** One answered round, as three steps. */
  lemma RoundInRun(c: Config, r: Run, n: NodeId, p: NodeId) returns (r': Run)
    requires Going(c, r) && CanRepair(c, Last(c, r), n, p)
    requires p in Last(c, r).nodes[n].nextIndex
    ensures Going(c, r') && |r'.steps| == |r.steps| + 3 && Exchanging(r, r', n, p)
    ensures var s := Last(c, r); var x := Exchange(s.nodes[n], s.nodes[p], n, p, |c.members|);
            Last(c, r').nodes == s.nodes[p := x.follower][n := x.leader]
  {
    var s := Last(c, r);
    RunInv(c, r, |r.steps|);
    FreshNotOvertaken(c, s, n, p);
    var sent, m := Send(c, r, n, p);
    var handled, reply := Deliver(c, sent, m);
    r' := Acknowledge(c, handled, reply);
    OneExchange(r, sent, SendAppend(n, p), n, p);
    OneExchange(sent, handled, HandleAppend(m), n, p);
    OneExchange(handled, r', ReceiveAppendReply(reply), n, p);
    MoreExchange(r, sent, handled, n, p);
    MoreExchange(r, handled, r', n, p);
  }

  /** From any state of a run in which one node leads and a peer is not ahead of it, the
      run can go on by answered rounds between the two, each of three steps, until one
      succeeds: these rounds are the ones RunRepair computes. */
  lemma {:induction false} RepairInRun(c: Config, r: Run, n: NodeId, p: NodeId) returns (r': Run)
    requires Going(c, r) && CanRepair(c, Last(c, r), n, p)
    requires Repairable(Last(c, r).nodes[n], Last(c, r).nodes[p], p)
    ensures var s := Last(c, r); var done := RunRepair(s.nodes[n], s.nodes[p], n, p, |c.members|);
            && Going(c, r') && Exchanging(r, r', n, p)
            && |r'.steps| == |r.steps| + 3 * (done.failures + 1)
            && Last(c, r').nodes == s.nodes[p := done.last.follower][n := done.last.leader]
    decreases Last(c, r).nodes[n].nextIndex[p]
  {
    var s := Last(c, r);
    var x := Exchange(s.nodes[n], s.nodes[p], n, p, |c.members|);
    RoundOutcome(s.nodes[n], s.nodes[p], n, p, |c.members|);
    r' := RoundInRun(c, r, n, p);
    if !x.success {
      var once := r';
      r' := RepairInRun(c, once, n, p);
      MoreExchange(r, once, r', n, p);
      var last := RunRepair(x.leader, x.follower, n, p, |c.members|).last;
      WrittenTwice(s.nodes, p, n, x.follower, x.leader, last.follower, last.leader);
    }
  }

  /** Every leader can repair every peer that is not ahead of it, from any state of any
      run: the run can be continued, by the appends between the two and their answers
      alone, with at most next_index failed rounds and one successful round, to a state
      where the leader's log is unchanged and a prefix of the peer's. In order, the peer
      has then committed and applied all that the leader had at the start. */
  lemma LeaderRepairsPeer(c: Config, r: Run, n: NodeId, p: NodeId) returns (r': Run)
    requires Going(c, r) && CanRepair(c, Last(c, r), n, p)
    ensures p in Last(c, r).nodes[n].nextIndex
    ensures Going(c, r') && Exchanging(r, r', n, p)
    ensures |r'.steps| <= |r.steps| + 3 * (Last(c, r).nodes[n].nextIndex[p] + 1)
    ensures var s, s' := Last(c, r), Last(c, r');
            && s'.nodes.Keys == s.nodes.Keys
            && (forall other :: other in s.nodes && other != n && other != p ==> s'.nodes[other] == s.nodes[other])
            && s'.nodes[n].role == Leader && s'.nodes[n].currentTerm == s.nodes[n].currentTerm
            && s.nodes[n].log == s'.nodes[n].log <= s'.nodes[p].log
            && (InOrder(r) ==> s.nodes[n].commitIndex <= s'.nodes[p].commitIndex
                               && s.nodes[n].stateMachine <= s'.nodes[p].stateMachine)
  {
    r' := RepairEnds(c, r, n, p);
    if InOrder(r) {
      AppliedInRun(c, r, |r.steps|, n);
      CaughtUpApplied(c, r', |r.steps|, |r'.steps|, n, p);
    }
  }

  /** The run of a whole repair, without what it means for the applied data. */
  lemma RepairEnds(c: Config, r: Run, n: NodeId, p: NodeId) returns (r': Run)
    requires Going(c, r) && CanRepair(c, Last(c, r), n, p)
    ensures p in Last(c, r).nodes[n].nextIndex
    ensures Going(c, r') && Exchanging(r, r', n, p)
    ensures |r'.steps| <= |r.steps| + 3 * (Last(c, r).nodes[n].nextIndex[p] + 1)
    ensures var s, s' := Last(c, r), Last(c, r');
            && s'.nodes == s.nodes[p := s'.nodes[p]][n := s'.nodes[n]]
            && s'.nodes[n].role == Leader && s'.nodes[n].currentTerm == s.nodes[n].currentTerm
            && s.nodes[n].log == s'.nodes[n].log <= s'.nodes[p].log
            && (s.nodes[n].commitIndex < |s.nodes[n].log| ==> s.nodes[n].commitIndex <= s'.nodes[p].commitIndex)
  {
    var s := Last(c, r);
    LeadersCanRepair(c, r, |r.steps|, n, p);
    RepairConverges(s.nodes[n], s.nodes[p], n, p, |c.members|);
    r' := RepairInRun(c, r, n, p);
  }

  /** On an in-order run, a node that has committed as much as another once had has
      applied all that the other then had. */
  lemma CaughtUpApplied(c: Config, r: Run, i: nat, j: nat, n: NodeId, p: NodeId)
    requires IsRun(c, r) && InOrder(r) && i <= |r.steps| && j <= |r.steps|
    requires n in r.states[i].nodes && p in r.states[j].nodes
    requires r.states[i].nodes[n].commitIndex <= r.states[j].nodes[p].commitIndex
    ensures r.states[i].nodes[n].stateMachine <= r.states[j].nodes[p].stateMachine
  {
    AppliedInRun(c, r, i, n);
    AppliedInRun(c, r, j, p);
    StateMachineSafety(c, r, i, j, n, p);
  }
}
