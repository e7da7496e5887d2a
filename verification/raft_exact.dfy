/** When State Machine Safety holds: exactly which clusters need appends in order. */
module RaftExact {
  import opened RaftNode
  import opened RaftCluster
  import opened RaftSafety
  import opened RaftTheorems
  import opened RaftOrdering
  import opened RaftReordering
  import opened RaftSmall

  /** In order, any cluster is safe. */
  lemma InOrderIsSafe(c: Config, r: Run)
    requires IsRun(c, r) && InOrder(r)
    ensures AppliesOneSequence(r)
  {
    forall i: nat, j: nat, a, b | i < |r.states| && j < |r.states| && a in r.states[i].nodes && b in r.states[j].nodes
      ensures Comparable(r.states[i].nodes[a].stateMachine, r.states[j].nodes[b].stateMachine)
    {
      StateMachineSafety(c, r, i, j, a, b);
    }
  }

  /** A cluster of at most two nodes is safe in any order. */
  lemma SmallIsSafe(c: Config, r: Run)
    requires Small(c) && IsRun(c, r)
    ensures AppliesOneSequence(r)
  {
    forall i: nat, j: nat, a, b | i < |r.states| && j < |r.states| && a in r.states[i].nodes && b in r.states[j].nodes
      ensures Comparable(r.states[i].nodes[a].stateMachine, r.states[j].nodes[b].stateMachine)
    {
      SmallStateMachineSafety(c, r, i, j, a, b);
    }
  }

  /** State Machine Safety holds on every run of a cluster if and only if appends are
      delivered first-in first-out or the cluster has at most two nodes. */
  lemma SafeExactlyWhen(c: Config, fifo: bool)
    requires c.Valid()
    ensures (forall r {:trigger AppliesOneSequence(r)} ::
               IsRun(c, r) && (fifo ==> Fifo(r)) ==> AppliesOneSequence(r))
            <==> fifo || |c.members| <= 2
  {
    if fifo || |c.members| <= 2 {
      forall r | IsRun(c, r) && (fifo ==> Fifo(r))
        ensures AppliesOneSequence(r)
      {
        if fifo {
          FifoIsInOrder(c, r);
          InOrderIsSafe(c, r);
        } else {
          SmallIsSafe(c, r);
        }
      }
    } else {
      var r := ReorderedAppendsBreakSafety(c);
    }
  }
}
