/** What the ordering assumption amounts to: first-in first-out delivery of appends
    implies it, and an append violates it exactly when handling it loses an entry of
    its own term. */
module RaftOrdering {
  import opened RaftNode
  import opened RaftCluster
  import opened RaftInvariant
  import opened RaftPreservation
  import opened RaftSafety
  import opened RaftSafetyPreservation
  import opened RaftTheorems

  // ------------------------------------------------------------ exact condition

  /** Every entry of term t stays where it is. */
  ghost predicate KeepsEntriesOf(t: nat, log: Log, log': Log) {
    forall k {:trigger log[k]} :: 0 <= k < |log| && log[k].term == t ==> k < |log'| && log'[k] == log[k]
  }

  /** On any run: handling an append keeps every entry of the append's own term exactly
      when the append is not overtaken, which the receiver can tell beforehand. */
  lemma OvertakenExactly(c: Config, r: Run, i: nat, m: Append)
    requires IsRun(c, r) && i <= |r.steps| && m in r.states[i].net.appends && m.to in r.states[i].nodes
    ensures var node := r.states[i].nodes[m.to];
            Overtaken(node, m.args) <==>
            !KeepsEntriesOf(m.args.term, node.log, HandleAppendEntries(node, m.args).log)
  {
    var s := r.states[i];
    var node := s.nodes[m.to];
    RunInv(c, r, i);
    assert NodeInv(s.history, m.to, node) && AppendInv(c, s.history, m);
    HandleAppendFields(node, m.args);
    if Overtaken(node, m.args) {
      OvertakenLoses(c, s.history, m.to, node, m);
    } else {
      NotOvertakenKeeps(c, s.history, m.to, node, m);
    }
  }

  lemma OvertakenLoses(c: Config, h: History, n: NodeId, node: Node, m: Append)
    requires HistoryInv(c, h) && AppendInv(c, h, m) && NodeInv(h, n, node) && Overtaken(node, m.args)
    ensures !KeepsEntriesOf(m.args.term, node.log, NewLog(node, m.args))
  {
    AppendEffect(c, h, m, node.log);
    BuiltLog(c, h, m);
    var last := |node.log| - 1;
    assert node.log[last].term == m.args.term;
  }

  lemma NotOvertakenKeeps(c: Config, h: History, n: NodeId, node: Node, m: Append)
    requires HistoryInv(c, h) && AppendInv(c, h, m) && NodeInv(h, n, node) && !Overtaken(node, m.args)
    ensures KeepsEntriesOf(m.args.term, node.log, NewLog(node, m.args))
  {
    var log' := NewLog(node, m.args);
    forall k | 0 <= k < |node.log| && node.log[k].term == m.args.term
      ensures k < |log'| && log'[k] == node.log[k]
    {
      EntryKept(c, h, n, node, m, node.log[..k + 1], k);
    }
  }

  lemma EntryKept(c: Config, h: History, n: NodeId, node: Node, m: Append, p: Log, k: nat)
    requires HistoryInv(c, h) && AppendInv(c, h, m) && NodeInv(h, n, node) && !Overtaken(node, m.args)
    requires k < |node.log| && node.log[k].term == m.args.term && p == node.log[..k + 1]
    ensures p <= NewLog(node, m.args)
    ensures k < |NewLog(node, m.args)| && NewLog(node, m.args)[k] == node.log[k]
  {
    if m.args.term >= node.currentTerm {
      assert EntryBacked(h, node.log, k);
      HandleKeepsPrefix(c, h, node, m, p);
      assert p[k] == node.log[k];
    }
  }

  // ------------------------------------------------- first-in first-out delivery

  /** Later builds of one term cover at least as much. */
  ghost predicate StampsInv(s: Cluster) {
    && (forall m {:trigger m in s.net.appends} :: m in s.net.appends ==> m.stamp < s.order.builds)
    && forall a, b {:trigger BuiltNoLater(a, b)} ::
         a in s.net.appends && b in s.net.appends && BuiltNoLater(a, b) ==> |a.built| <= |b.built|
  }

  ghost predicate BuiltNoLater(a: Append, b: Append) {
    a.args.term == b.args.term && a.stamp <= b.stamp
  }

  /** An append that may still be handled covers the receiver's entries of its term. */
  ghost predicate Covers(o: Ordering, node: Node, m: Append) {
    m.args.term == node.currentTerm == LastTerm(node.log) && NotBuiltEarlier(o, m) ==> |node.log| <= |m.built|
  }

  ghost predicate CoversInv(s: Cluster) {
    forall m {:trigger Covers(s.order, s.nodes[m.to], m)} ::
      m in s.net.appends && m.to in s.nodes ==> Covers(s.order, s.nodes[m.to], m)
  }

  lemma StampsStep(c: Config, s: Cluster, step: Step)
    requires Inv(c, s) && Enabled(c, s, step) && StampsInv(s)
    ensures StampsInv(Apply(c, s, step))
  {
    match step
    case SendAppend(n, peer) =>
      var node := s.nodes[n];
      assert KnowsPeers(c, n, node) && NodeInv(s.history, n, node);
      var s' := AfterSendAppend(s, n, peer);
      forall a, b | a in s'.net.appends && b in s'.net.appends && BuiltNoLater(a, b)
        ensures |a.built| <= |b.built|
      {
        if a in s.net.appends {
          assert AppendInv(c, s.history, a);
        }
      }
    case _ =>
  }

  /** The log of a node that did not just handle an append: unchanged, of older terms
      than its own, or the leader's own. */
  ghost predicate QuietLog(h: History, n: NodeId, node: Node, node': Node) {
    || (node'.log == node.log && node'.currentTerm == node.currentTerm)
    || (node'.currentTerm > LastTerm(node'.log) || node'.log == [])
    || (node'.currentTerm in h.reigns && h.reigns[node'.currentTerm].leader == n)
  }

  lemma StepQuiet(c: Config, s: Cluster, step: Step, n: NodeId)
    requires Inv(c, s) && Enabled(c, s, step) && n in s.nodes
    requires step.HandleAppend? ==> step.append.to != n
    ensures QuietLog(s.history, n, s.nodes[n], Apply(c, s, step).nodes[n])
  {
    var node := s.nodes[n];
    assert NodeInv(s.history, n, node) && KnowsPeers(c, n, node);
    match step
    case ReceiveAppendReply(rep) =>
      if rep.append.args.leader == n {
        ReplyFields(node, rep, |c.members|);
        CommitFields(RecordAck(node, rep.append.to, EndIndex(rep.append.args)), |c.members|);
        ReplyTerm(node, rep, |c.members|);
      }
    case _ =>
  }

  lemma ReplyTerm(node: Node, rep: AppendReply, size: nat)
    requires rep.append.to in node.nextIndex
    ensures var node' := HandleAppendReply(node, rep.append.to, rep.append.args, rep.term, rep.success, size);
            node'.log == node.log && node'.currentTerm >= node.currentTerm
  {
    CommitFields(RecordAck(node, rep.append.to, EndIndex(rep.append.args)), size);
  }

  lemma QuietCovers(c: Config, h: History, o: Ordering, o': Ordering, n: NodeId, node: Node, node': Node, m: Append)
    requires QuietLog(h, n, node, node') && AppendInv(c, h, m) && m.to == n
    requires o'.handled == o.handled && Covers(o, node, m)
    ensures Covers(o', node', m)
  {
  }

  lemma SentCovers(c: Config, h: History, o: Ordering, n: NodeId, node: Node, m: Append)
    requires NodeInv(h, n, node)
    requires m.args.term in h.reigns && m.built == h.reigns[m.args.term].log
    ensures Covers(o, node, m)
  {
    if node.log != [] && LastTerm(node.log) == m.args.term {
      assert EntryBacked(h, node.log, |node.log| - 1);
    }
  }

  /** Handling an append in order: every append still to come covers the new log. */
  lemma HandledCovers(c: Config, s: Cluster, m: Append, a: Append)
    requires Inv(c, s) && m in s.net.appends && a in s.net.appends && a.to == m.to && m.to in s.nodes
    requires StampsInv(s) && Covers(s.order, s.nodes[m.to], a) && NotBuiltEarlier(s.order, m)
    ensures Covers(AfterAppend(s, m).order, HandleAppendEntries(s.nodes[m.to], m.args), a)
  {
    assert NodeInv(s.history, m.to, s.nodes[m.to]) && AppendInv(c, s.history, m);
    assert BuiltNoLater(m, a) ==> |m.built| <= |a.built|;
    HandledNode(c, s.history, s.order, s.nodes[m.to], m, a);
  }

  lemma HandledNode(c: Config, h: History, o: Ordering, node: Node, m: Append, a: Append)
    requires HistoryInv(c, h) && AppendInv(c, h, m) && NodeInv(h, m.to, node) && a.to == m.to
    requires Covers(o, node, a) && NotBuiltEarlier(o, m) && (BuiltNoLater(m, a) ==> |m.built| <= |a.built|)
    ensures Covers(o.(handled := o.handled[Seat(m.to, m.args.term) := m.stamp]), HandleAppendEntries(node, m.args), a)
  {
    HandleAppendFields(node, m.args);
    if m.args.term >= node.currentTerm {
      var node' := HandleAppendEntries(node, m.args);
      HandledLog(c, h, node, m);
      CoversAfter(o, node, node', m, a);
    }
  }

  /** An append leaves its sender's log or a prefix of the old one, and the latter ends
      in the append's term only if the old one did. */
  ghost predicate LeavesLog(node: Node, log': Log, m: Append) {
    || log' == m.built
    || (log' <= node.log && (log' != [] && LastTerm(log') == m.args.term ==>
                               LastTerm(node.log) == node.currentTerm == m.args.term))
  }

  lemma HandledLog(c: Config, h: History, node: Node, m: Append)
    requires HistoryInv(c, h) && AppendInv(c, h, m) && NodeInv(h, m.to, node) && m.args.term >= node.currentTerm
    ensures LeavesLog(node, LogAfterAppend(node.log, m.args.prevIndex, m.args.prevTerm, m.args.entries), m)
  {
    AppendEffect(c, h, m, node.log);
    var log' := LogAfterAppend(node.log, m.args.prevIndex, m.args.prevTerm, m.args.entries);
    BackedSorted(c, h, node.log);
    if log' <= node.log && log' != [] {
      assert log'[|log'| - 1] == node.log[|log'| - 1];
    }
  }

  lemma CoversAfter(o: Ordering, node: Node, node': Node, m: Append, a: Append)
    requires a.to == m.to && Covers(o, node, a) && NotBuiltEarlier(o, m)
    requires BuiltNoLater(m, a) ==> |m.built| <= |a.built|
    requires node'.currentTerm == m.args.term && LeavesLog(node, node'.log, m)
    ensures Covers(o.(handled := o.handled[Seat(m.to, m.args.term) := m.stamp]), node', a)
  {
  }

  lemma HandledSame(c: Config, s: Cluster, step: Step)
    requires TypeOk(c, s) && Enabled(c, s, step) && !step.HandleAppend?
    ensures Apply(c, s, step).order.handled == s.order.handled
  {
  }

  lemma CoversOld(c: Config, s: Cluster, step: Step, m: Append)
    requires Inv(c, s) && Enabled(c, s, step) && StampsInv(s)
    requires step.HandleAppend? ==> NotBuiltEarlier(s.order, step.append)
    requires m in s.net.appends && m.to in s.nodes && Covers(s.order, s.nodes[m.to], m)
    requires m.to in Apply(c, s, step).nodes
    ensures Covers(Apply(c, s, step).order, Apply(c, s, step).nodes[m.to], m)
  {
    match step
    case HandleAppend(other) =>
      if other.to == m.to {
        HandledCovers(c, s, other, m);
      } else {
        OtherHandled(s, other, m);
      }
    case _ =>
      var n, s' := m.to, Apply(c, s, step);
      assert AppendInv(c, s.history, m);
      StepQuiet(c, s, step, n);
      HandledSame(c, s, step);
      QuietCovers(c, s.history, s.order, s'.order, n, s.nodes[n], s'.nodes[n], m);
  }

  lemma CoversNew(c: Config, s: Cluster, step: Step, m: Append)
    requires Inv(c, s) && Enabled(c, s, step) && m.to in s.nodes
    requires m in Apply(c, s, step).net.appends && m !in s.net.appends
    ensures m.to in Apply(c, s, step).nodes && Covers(Apply(c, s, step).order, Apply(c, s, step).nodes[m.to], m)
  {
    AppendStep(c, s, step, m);
    var n, l := m.to, m.args.leader;
    assert NodeInv(s.history, n, s.nodes[n]) && NodeInv(s.history, l, s.nodes[l]);
    SentCovers(c, s.history, AfterSendAppend(s, l, n).order, n, s.nodes[n], m);
  }

  lemma CoversStep(c: Config, s: Cluster, step: Step)
    requires c.Valid() && Inv(c, s) && Enabled(c, s, step) && StampsInv(s) && CoversInv(s)
    requires step.HandleAppend? ==> NotBuiltEarlier(s.order, step.append)
    ensures CoversInv(Apply(c, s, step))
  {
    StepInv(c, s, step);
    var s' := Apply(c, s, step);
    forall m | m in s'.net.appends && m.to in s'.nodes
      ensures Covers(s'.order, s'.nodes[m.to], m)
    {
      if m !in s.net.appends {
        CoversNew(c, s, step, m);
      } else {
        assert Covers(s.order, s.nodes[m.to], m);
        CoversOld(c, s, step, m);
      }
    }
  }

  lemma OtherHandled(s: Cluster, m: Append, a: Append)
    requires m.to in s.nodes && a.to in s.nodes && a.to != m.to && Covers(s.order, s.nodes[a.to], a)
    ensures Covers(AfterAppend(s, m).order, s.nodes[a.to], a)
  {
  }

  lemma {:induction false} RunFifo(c: Config, r: Run, i: nat)
    requires IsRun(c, r) && Fifo(r) && i <= |r.steps|
    ensures StampsInv(r.states[i]) && CoversInv(r.states[i])
  {
    if i > 0 {
      var step := r.steps[i - 1];
      RunFifo(c, r, i - 1);
      RunInv(c, r, i - 1);
      StampsStep(c, r.states[i - 1], step);
      CoversStep(c, r.states[i - 1], step);
    }
  }

  lemma CoveredNotOvertaken(c: Config, h: History, o: Ordering, n: NodeId, node: Node, m: Append)
    requires HistoryInv(c, h) && AppendInv(c, h, m) && NodeInv(h, n, node)
    requires Covers(o, node, m) && NotBuiltEarlier(o, m)
    ensures !Overtaken(node, m.args)
  {
    BuiltLog(c, h, m);
  }

  /** First-in first-out delivery is enough: no append is ever overtaken, so everything
      proved of in-order runs holds. */
  lemma FifoIsInOrder(c: Config, r: Run)
    requires IsRun(c, r) && Fifo(r)
    ensures InOrder(r)
  {
    forall i | 0 <= i < |r.steps| && r.steps[i].HandleAppend?
      ensures NotOvertaken(r.states[i], r.steps[i].append)
    {
      var s, m := r.states[i], r.steps[i].append;
      RunInv(c, r, i);
      RunFifo(c, r, i);
      assert NodeInv(s.history, m.to, s.nodes[m.to]) && AppendInv(c, s.history, m);
      assert Covers(s.order, s.nodes[m.to], m);
      CoveredNotOvertaken(c, s.history, s.order, m.to, s.nodes[m.to], m);
    }
  }
}
