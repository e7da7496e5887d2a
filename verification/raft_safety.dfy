/** The part of the inductive invariant that needs appends not to be overtaken:
    acknowledged entries stay, later leaders have every entry that may be committed,
    and what a node has applied is a committed prefix. */
module RaftSafety {
  import opened Common
  import opened RaftNode
  import opened RaftCluster
  import opened RaftInvariant
  import opened RaftPreservation

  // --------------------------------------------------- prefixes of a reign's log

  /** The leader of term t has put an entry of its own at position k - 1. */
  ghost predicate OwnEntry(h: History, t: nat, k: nat) {
    t in h.reigns && 1 <= k <= |h.reigns[t].log| && h.reigns[t].log[k - 1].term == t
  }

  /** A log starts with the first k entries of the leader of term t. */
  ghost predicate Holds(h: History, t: nat, k: nat, log: Log)
    requires t in h.reigns && k <= |h.reigns[t].log|
  {
    h.reigns[t].log[..k] <= log
  }

  ghost predicate Acked(h: History, n: NodeId, t: nat, k: nat) {
    k <= |Accepted(h, n, t)|
  }

  ghost function AckSet(c: Config, h: History, t: nat, k: nat): set<NodeId> {
    set n | n in c.Nodes() && Acked(h, n, t, k)
  }

  /** The majority count in term t reaches position k - 1. */
  ghost predicate Committed(c: Config, h: History, t: nat, k: nat) {
    OwnEntry(h, t, k) && c.Majority(AckSet(c, h, t, k))
  }

  /** The voters of a later leader have all left term t without acknowledging k entries. */
  ghost predicate BlockedBy(h: History, t: nat, k: nat, w: nat) {
    && w in h.reigns && t < w
    && forall v {:trigger Acked(h, v, t, k)} :: v in h.reigns[w].voters ==> !Acked(h, v, t, k)
  }

  ghost predicate Blocked(h: History, t: nat, k: nat) {
    exists w: nat {:trigger BlockedBy(h, t, k, w)} :: BlockedBy(h, t, k, w)
  }

  // ------------------------------------------------------------------ invariant

  /** What a node acknowledged in a term it still has, unless that can never be committed. */
  ghost predicate KeepInv(h: History, n: NodeId, log: Log) {
    forall t: nat, k: nat {:trigger Acked(h, n, t, k)} ::
      OwnEntry(h, t, k) && Acked(h, n, t, k) ==> Holds(h, t, k, log) || Blocked(h, t, k)
  }

  ghost predicate KeepsAll(h: History, nodes: map<NodeId, Node>) {
    forall n {:trigger KeepInv(h, n, nodes[n].log)} :: n in nodes ==> KeepInv(h, n, nodes[n].log)
  }

  /** A candidate has what those who voted for it had acknowledged earlier. */
  ghost predicate VoteSafe(h: History, seat: Seat)
    requires seat in h.votes && Seat(h.votes[seat], seat.term) in h.campaigns
  {
    forall t: nat, k: nat {:trigger Acked(h, seat.node, t, k)} ::
      OwnEntry(h, t, k) && t < seat.term && Acked(h, seat.node, t, k) ==>
        Holds(h, t, k, h.campaigns[Seat(h.votes[seat], seat.term)]) || Blocked(h, t, k)
  }

  ghost predicate VotesSafe(h: History) {
    forall seat {:trigger Seat(h.votes[seat], seat.term)} ::
      seat in h.votes ==> Seat(h.votes[seat], seat.term) in h.campaigns && VoteSafe(h, seat)
  }

  /** A later leader starts with every entry that may be committed. */
  ghost predicate StartInv(h: History, u: nat)
    requires u in h.reigns
  {
    forall t: nat, k: nat {:trigger OwnEntry(h, t, k)} ::
      OwnEntry(h, t, k) && t < u ==> Holds(h, t, k, h.reigns[u].start) || Blocked(h, t, k)
  }

  ghost predicate StartsInv(h: History) {
    forall u {:trigger StartInv(h, u)} :: u in h.reigns ==> StartInv(h, u)
  }

  /** A prefix of what some leader, of term at most u, has committed. */
  ghost predicate CommittedBy(c: Config, h: History, p: Log, t: nat, k: nat) {
    Committed(c, h, t, k) && p <= h.reigns[t].log[..k]
  }

  ghost predicate SafePrefix(c: Config, h: History, u: nat, p: Log) {
    p == [] || exists t: nat, k: nat {:trigger CommittedBy(c, h, p, t, k)} :: t <= u && CommittedBy(c, h, p, t, k)
  }

  /** Applied state mirrors the log, and only committed entries are applied. */
  ghost predicate AppliedInv(c: Config, h: History, node: Node) {
    && node.commitIndex < |node.log|
    && node.lastApplied == node.commitIndex
    && node.stateMachine == Payloads(node.log[..node.commitIndex + 1])
    && SafePrefix(c, h, node.currentTerm, node.log[..node.commitIndex + 1])
  }

  ghost predicate AllApplied(c: Config, h: History, nodes: map<NodeId, Node>) {
    forall n {:trigger AppliedInv(c, h, nodes[n])} :: n in nodes ==> AppliedInv(c, h, nodes[n])
  }

  ghost predicate CarriedCommit(c: Config, h: History, m: Append) {
    && m.args.leaderCommit < |m.built|
    && SafePrefix(c, h, m.args.term, m.built[..m.args.leaderCommit + 1])
  }

  ghost predicate AllCarried(c: Config, h: History, net: Network) {
    forall m {:trigger CarriedCommit(c, h, m)} :: m in net.appends ==> CarriedCommit(c, h, m)
  }

  ghost predicate SafetyInv(c: Config, s: Cluster) {
    && KeepsAll(s.history, s.nodes)
    && VotesSafe(s.history)
    && StartsInv(s.history)
    && AllApplied(c, s.history, s.nodes)
    && AllCarried(c, s.history, s.net)
  }

  // ------------------------------------------------ what the invariant amounts to

  /** A majority that acknowledged k entries meets every majority of later voters. */
  lemma CommittedNotBlocked(c: Config, h: History, t: nat, k: nat)
    requires c.Valid() && HistoryInv(c, h) && Committed(c, h, t, k)
    ensures !Blocked(h, t, k)
  {
    forall w: nat | w in h.reigns && t < w
      ensures !BlockedBy(h, t, k, w)
    {
      assert ReignInv(c, h, w);
      var v := MajoritiesMeet(c, AckSet(c, h, t, k), h.reigns[w].voters);
      assert Acked(h, v, t, k);
    }
  }

  /** Leader completeness, on one history. */
  lemma LaterLeaderHolds(c: Config, h: History, t: nat, k: nat, u: nat)
    requires c.Valid() && HistoryInv(c, h) && StartsInv(h)
    requires Committed(c, h, t, k) && u in h.reigns && t < u
    ensures h.reigns[t].log[..k] <= h.reigns[u].start
  {
    CommittedNotBlocked(c, h, t, k);
    assert StartInv(h, u);
  }

  /** A committed prefix is a prefix of the log of every leader from then on. */
  lemma SafePrefixOfReign(c: Config, h: History, u: nat, p: Log, w: nat)
    requires c.Valid() && HistoryInv(c, h) && StartsInv(h)
    requires SafePrefix(c, h, u, p) && w in h.reigns && u <= w
    ensures p <= h.reigns[w].log
  {
    if p != [] {
      var t: nat, k: nat :| t <= u && CommittedBy(c, h, p, t, k);
      if t < w {
        LaterLeaderHolds(c, h, t, k, w);
        assert ReignInv(c, h, w);
      }
    }
  }

  ghost predicate Comparable<T>(a: seq<T>, b: seq<T>) {
    a <= b || b <= a
  }

  /** Any two committed prefixes are comparable. */
  lemma SafePrefixesComparable(c: Config, h: History, u: nat, p: Log, w: nat, q: Log)
    requires c.Valid() && HistoryInv(c, h) && StartsInv(h)
    requires SafePrefix(c, h, u, p) && SafePrefix(c, h, w, q)
    ensures Comparable(p, q)
  {
    if p != [] && q != [] {
      var t: nat, k: nat :| t <= u && CommittedBy(c, h, p, t, k);
      var t': nat, k': nat :| t' <= w && CommittedBy(c, h, q, t', k');
      var last := if t <= t' then t' else t;
      assert SafePrefix(c, h, last, p) && SafePrefix(c, h, last, q);
      SafePrefixOfReign(c, h, last, p, last);
      SafePrefixOfReign(c, h, last, q, last);
    }
  }

  // -------------------------------------------------- how the pieces persist

  lemma HoldsMono(h: History, h': History, t: nat, k: nat, log: Log, log': Log)
    requires Extends(h, h') && OwnEntry(h, t, k) && Holds(h, t, k, log) && log <= log'
    ensures OwnEntry(h', t, k) && Holds(h', t, k, log')
  {
    assert ReignGrows(h.reigns[t], h'.reigns[t]);
    assert h'.reigns[t].log[..k] == h.reigns[t].log[..k];
  }

  lemma OwnEntryMono(h: History, h': History, t: nat, k: nat)
    requires Extends(h, h') && OwnEntry(h, t, k)
    ensures OwnEntry(h', t, k) && h'.reigns[t].log[..k] == h.reigns[t].log[..k]
  {
    assert ReignGrows(h.reigns[t], h'.reigns[t]);
  }

  lemma CommittedMono(c: Config, h: History, h': History, t: nat, k: nat)
    requires Extends(h, h') && Committed(c, h, t, k)
    ensures Committed(c, h', t, k)
  {
    OwnEntryMono(h, h', t, k);
    forall n | n in AckSet(c, h, t, k)
      ensures n in AckSet(c, h', t, k)
    {
      AcceptedMono(h, h', n, t);
      assert Acked(h', n, t, k);
    }
    SubsetSize(AckSet(c, h, t, k), AckSet(c, h', t, k));
  }

  lemma SafePrefixMono(c: Config, h: History, h': History, u: nat, u': nat, p: Log)
    requires Extends(h, h') && SafePrefix(c, h, u, p) && u <= u'
    ensures SafePrefix(c, h', u', p)
  {
    if p != [] {
      var t: nat, k: nat :| t <= u && CommittedBy(c, h, p, t, k);
      CommittedMono(c, h, h', t, k);
      OwnEntryMono(h, h', t, k);
      assert CommittedBy(c, h', p, t, k);
    }
  }

  /** Acknowledgements change only at the acting node, in its current term. */
  ghost predicate AcksOnlyAt(h: History, h': History, n: NodeId, term: nat) {
    forall v: NodeId, t: nat {:trigger Accepted(h', v, t)} ::
      v != n || t != term ==> Accepted(h', v, t) == Accepted(h, v, t)
  }

  lemma BlockedMono(c: Config, h: History, h': History, n: NodeId, term: nat, t: nat, k: nat)
    requires HistoryInv(c, h) && Extends(h, h') && AcksOnlyAt(h, h', n, term)
    requires SeatsWithin(h, n, term)
    requires Blocked(h, t, k)
    ensures Blocked(h', t, k)
  {
    var w: nat :| BlockedBy(h, t, k, w);
    assert ReignGrows(h.reigns[w], h'.reigns[w]);
    assert ReignInv(c, h, w);
    forall v | v in h'.reigns[w].voters
      ensures !Acked(h', v, t, k)
    {
      assert !Acked(h, v, t, k);
      assert Voted(h, v, w, h.reigns[w].leader);
    }
    assert BlockedBy(h', t, k, w);
  }
}
