/** One node of the Raft engine: its fields, and the effect of each lock-held
    block of the service as a function from the fields before to the fields after.
    The class in RaftService is proved to compute exactly these functions;
    RaftCluster composes them into runs of a whole cluster. */
module RaftNode {
  import opened Common

  /** Node names are only ever compared. */
  type NodeId = nat

  /** A proposed JSON block; the engine stores and copies it, never inspects it. */
  datatype Data = Json(text: string)

  datatype Entry = Entry(term: nat, data: Data)
  type Log = seq<Entry>

  /** A position in a log, or -1 for "before the first entry". */
  type Index = i: int | -1 <= i witness -1

  datatype Role = Follower | Candidate | Leader

  datatype Node = Node(
    currentTerm: nat,
    votedFor: Option<NodeId>,
    log: Log,
    commitIndex: Index,
    lastApplied: Index,
    stateMachine: seq<Data>,
    nextIndex: map<NodeId, nat>,
    matchIndex: map<NodeId, Index>,
    role: Role,
    leaderId: Option<NodeId>)

  function InitialNode(peers: set<NodeId>): Node {
    Node(0, None, [], -1, -1, [],
         map p | p in peers :: 0, map p | p in peers :: -1,
         Follower, None)
  }

  function LastIndex(log: Log): Index {
    |log| - 1
  }

  function LastTerm(log: Log): nat {
    if |log| > 0 then log[|log| - 1].term else 0
  }

  function Payloads(log: Log): seq<Data> {
    seq(|log|, i requires 0 <= i < |log| => log[i].data)
  }

  /** A higher term seen anywhere makes the node a follower without a vote. */
  function StepDown(n: Node, term: nat): Node {
    n.(currentTerm := term, role := Follower, votedFor := None)
  }

  // ---------------------------------------------------------------- elections

  function StartCampaign(n: Node, self: NodeId): Node {
    n.(role := Candidate, currentTerm := n.currentTerm + 1, votedFor := Some(self))
  }

  /** The comparison of section 5.4.1 of the Raft paper. */
  predicate UpToDate(lastTerm: nat, lastIndex: Index, log: Log) {
    lastTerm > LastTerm(log) || (lastTerm == LastTerm(log) && lastIndex >= LastIndex(log))
  }

  predicate GrantsVote(n: Node, term: nat, candidate: NodeId, lastIndex: Index, lastTerm: nat) {
    var m := if term > n.currentTerm then StepDown(n, term) else n;
    && term == m.currentTerm
    && (m.votedFor == None || m.votedFor == Some(candidate))
    && UpToDate(lastTerm, lastIndex, m.log)
  }

  function HandleRequestVote(n: Node, term: nat, candidate: NodeId, lastIndex: Index, lastTerm: nat): Node {
    var m := if term > n.currentTerm then StepDown(n, term) else n;
    if GrantsVote(n, term, candidate, lastIndex, lastTerm) then m.(votedFor := Some(candidate)) else m
  }

  function HandleVoteReply(n: Node, replyTerm: nat): Node {
    if replyTerm > n.currentTerm then StepDown(n, replyTerm) else n
  }

  /** Whether a vote reply that did not end the campaign is counted. */
  predicate CountsVote(n: Node, campaignTerm: nat, granted: bool) {
    n.role == Candidate && n.currentTerm == campaignTerm && granted
  }

  predicate WinsElection(n: Node, campaignTerm: nat, votes: nat, clusterSize: nat) {
    n.role == Candidate && n.currentTerm == campaignTerm && votes > clusterSize / 2
  }

  function ConcludeElection(n: Node, self: NodeId, campaignTerm: nat, votes: nat, clusterSize: nat): Node {
    if WinsElection(n, campaignTerm, votes, clusterSize) then
      n.(role := Leader, leaderId := Some(self),
         nextIndex := map p | p in n.nextIndex :: LastIndex(n.log) + 1,
         matchIndex := map p | p in n.matchIndex :: -1)
    else n
  }

  // -------------------------------------------------------------- replication

  datatype AppendArgs = AppendArgs(
    term: nat, leader: NodeId, prevIndex: Index, prevTerm: nat, entries: Log, leaderCommit: Index)

  /** The position, in the sender's log, of the last entry an append vouches for. */
  function EndIndex(a: AppendArgs): Index {
    a.prevIndex + |a.entries|
  }

  function BuildAppend(n: Node, self: NodeId, peer: NodeId): AppendArgs
    requires peer in n.nextIndex
  {
    var next := n.nextIndex[peer];
    var prevTerm := if 0 <= next - 1 < |n.log| then n.log[next - 1].term else 0;
    var entries := if next <= |n.log| then n.log[next..] else [];
    AppendArgs(n.currentTerm, self, next - 1, prevTerm, entries, n.commitIndex)
  }

  /** The entries applied when lastApplied catches up with commitIndex. */
  function ApplyLogs(n: Node): Node
    requires n.commitIndex < |n.log|
  {
    if n.lastApplied < n.commitIndex then
      n.(lastApplied := n.commitIndex,
         stateMachine := n.stateMachine + Payloads(n.log[n.lastApplied + 1..n.commitIndex + 1]))
    else n
  }

  predicate AcceptsAppend(log: Log, prevIndex: Index, prevTerm: nat) {
    prevIndex >= 0 ==> prevIndex < |log| && log[prevIndex].term == prevTerm
  }

  function LogAfterAppend(log: Log, prevIndex: Index, prevTerm: nat, entries: Log): Log {
    if AcceptsAppend(log, prevIndex, prevTerm) then
      if entries != [] then log[..prevIndex + 1] + entries else log
    else if prevIndex < |log| then log[..prevIndex]
    else log
  }

  /** Whether the reply to an append says success. */
  predicate AppendSucceeds(n: Node, a: AppendArgs) {
    a.term >= n.currentTerm && AcceptsAppend(n.log, a.prevIndex, a.prevTerm)
  }

  /** A follower adopts the leader's commit index as far as its own log reaches. */
  function FollowCommit(n: Node, leaderCommit: Index): Node {
    if leaderCommit > n.commitIndex then
      ApplyLogs(n.(commitIndex := Min(leaderCommit, LastIndex(n.log))))
    else n
  }

  function HandleAppendEntries(n: Node, a: AppendArgs): Node {
    var m := if a.term > n.currentTerm then StepDown(n, a.term) else n;
    if a.term < m.currentTerm then m
    else
      var f := m.(leaderId := Some(a.leader), role := Follower,
                  log := LogAfterAppend(m.log, a.prevIndex, a.prevTerm, a.entries));
      if AcceptsAppend(m.log, a.prevIndex, a.prevTerm) then FollowCommit(f, a.leaderCommit) else f
  }

  function Propose(n: Node, data: Data): Node {
    if n.role == Leader then n.(log := n.log + [Entry(n.currentTerm, data)]) else n
  }

  // ------------------------------------------------------------------- commit

  function Holders(matchIndex: map<NodeId, Index>, index: Index): set<NodeId> {
    set p | p in matchIndex && matchIndex[p] >= index
  }

  /** The current-term commit rule of section 5.4.2: the leader itself and the peers
      whose match index reaches `index` are more than half the cluster. */
  predicate Committable(n: Node, clusterSize: nat, index: int) {
    && n.commitIndex < index < |n.log|
    && n.log[index].term == n.currentTerm
    && 1 + |Holders(n.matchIndex, index)| > clusterSize / 2
  }

  /** The greatest committable index up to `high`, or the old commit index. */
  function CommitTarget(n: Node, clusterSize: nat, high: int): (index: Index)
    requires high < |n.log|
    ensures index == n.commitIndex || (Committable(n, clusterSize, index) && index <= high)
    ensures forall i :: index < i <= high ==> !Committable(n, clusterSize, i)
    decreases high - n.commitIndex
  {
    if high <= n.commitIndex then n.commitIndex
    else if Committable(n, clusterSize, high) then high
    else CommitTarget(n, clusterSize, high - 1)
  }

  function UpdateCommitIndex(n: Node, clusterSize: nat): Node {
    var target := CommitTarget(n, clusterSize, LastIndex(n.log));
    if target == n.commitIndex then n else ApplyLogs(n.(commitIndex := target))
  }

  function RecordAck(n: Node, peer: NodeId, end: Index): Node {
    n.(matchIndex := n.matchIndex[peer := end], nextIndex := n.nextIndex[peer := end + 1])
  }

  function HandleAppendReply(n: Node, peer: NodeId, sent: AppendArgs, replyTerm: nat, success: bool,
                             clusterSize: nat): Node
    requires peer in n.nextIndex
  {
    if n.role != Leader || n.currentTerm != sent.term then n
    else if replyTerm > n.currentTerm then StepDown(n, replyTerm)
    else if success then
      if sent.entries != [] then UpdateCommitIndex(RecordAck(n, peer, EndIndex(sent)), clusterSize) else n
    else n.(nextIndex := n.nextIndex[peer := Max(0, n.nextIndex[peer] as int - 1)])
  }

  /** Commit search refines its specification: the new commit index is the greatest
      committable one, and it stays put exactly when none is committable. */
  lemma CommitSearchIsGreatest(n: Node, clusterSize: nat)
    ensures var index := UpdateCommitIndex(n, clusterSize).commitIndex;
            && (index == n.commitIndex <==> forall i :: !Committable(n, clusterSize, i))
            && (index != n.commitIndex ==>
                  && Committable(n, clusterSize, index)
                  && forall i :: Committable(n, clusterSize, i) ==> i <= index)
  {
    var target := CommitTarget(n, clusterSize, LastIndex(n.log));
    forall i | Committable(n, clusterSize, i)
      ensures i <= target && target != n.commitIndex
    {
    }
  }
}
