/** The leader's commit rule keeps ClusterInv. */
module ReplicationCommit {
  import opened RaftTypes
  import opened RaftNode
  import opened Protocol
  import opened Cluster
  import opened ReplicationInv
  import opened ReplicationSteps
  import opened ReplicationFollower
  import opened UnsentEntries
  import P = ProtocolSteps
  import E = ElectionSafety
  import R = RaftIndices

  /** The leader after it has counted an answer, before it looks for a new commit index. */
  function Counted(n: Node, peer: nat, a: AppendArgs): Node
    requires peer < |n.matched| && peer < |n.next|
  {
    var m := Max(n.matched[peer], a.prevIndex + |a.entries|);
    n.(matched := n.matched[peer := m], next := n.next[peer := m + 1])
  }

  /** The answer is counted: it carries the current term, and this node leads it. */
  predicate Counts(n: Node, r: AppendReply) {
    r.term == n.term && n.role == Leader && r.success
  }

  lemma CountedHandle(n: Node, peer: nat, a: AppendArgs, r: AppendReply)
    requires NodeOk(n) && peer < n.size && Counts(n, r)
    ensures NodeOk(Counted(n, peer, a))
    ensures HandleAppend(n, peer, a, r) == AdvanceCommit(Counted(n, peer, a))
  {}

  /** Match indices stay backed by acknowledgements. */
  lemma CountedKnown(c: Cluster, from: nat, a: AppendArgs, r: AppendReply, p: nat)
    requires ClusterInv(c) && AppendAnswer(from, a, r) in c.net && a.leader < |c.nodes| && from < |c.nodes|
    requires ShapedNode(c, a.leader) && Counts(c.nodes[a.leader], r)
    requires p < |c.nodes| && p != a.leader
    ensures c.nodes[a.leader].term in c.h.reigns
    ensures Known(c.h, Counted(c.nodes[a.leader], from, a), p)
  {
    hide LogInv, E.ElectionInv, UnsentOk;
    var n := c.nodes[a.leader];
    assert MessageOk(c, AppendAnswer(from, a, r));
    assert MemberOk(c, a.leader);
    LeaderTerm(c, a.leader);
    assert Known(c.h, n, p);
  }

  /** A node known to hold index m has acknowledged every index up to it. */
  lemma AckedBelow(h: History, t: int, p: nat, k: int, m: int)
    requires Acked(h, t, p, m) && k <= m
    ensures Acked(h, t, p, k)
  {}

  /** The protocol's state once the leader has put its own acknowledgement of index k on record. */
  function Recorded(c: Cluster, i: nat, k: int): State
    requires i < |c.nodes|
  {
    P.Acknowledge(View(c), i, k)
  }

  /** Each replicator of an index above the commit index has acknowledged it. */
  lemma ReplicatorAcked(c: Cluster, from: nat, a: AppendArgs, r: AppendReply, k: int, v: nat)
    requires ClusterInv(c) && AppendAnswer(from, a, r) in c.net && a.leader < |c.nodes| && from < |c.nodes|
    requires ShapedNode(c, a.leader) && Counts(c.nodes[a.leader], r)
    requires k > c.nodes[a.leader].commit
    requires v == a.leader || (v < |c.nodes| && Counted(c.nodes[a.leader], from, a).matched[v] >= k)
    ensures Acked(Recorded(c, a.leader, k).h, c.nodes[a.leader].term, v, k)
  {
    hide LogInv, E.ElectionInv;
    var n := c.nodes[a.leader];
    LeaderTerm(c, a.leader);
    if v == a.leader {
      assert Ack(n.term, a.leader, k) in Recorded(c, a.leader, k).h.acks;
    } else {
      CountedKnown(c, from, a, r, v);
      AckedBelow(c.h, n.term, v, k, Counted(n, from, a).matched[v]);
      AckedStays(c.h, Recorded(c, a.leader, k).h, n.term, v, k);
    }
  }

  lemma MayCommitOwn(n: Node, k: int)
    requires NodeOk(n) && Backed(n) && R.MayCommit(n, k)
    ensures 0 < k <= |Full(n)| && Full(n)[k - 1].term == n.term && n.commit < k
    ensures IsQuorum(R.Replicators(n, k), n.size)
  {
    FullLog(n);
  }

  /** A committable index is acknowledged by a majority. */
  lemma QuorumAcked(c: Cluster, from: nat, a: AppendArgs, r: AppendReply, k: int)
    requires ClusterInv(c) && AppendAnswer(from, a, r) in c.net && a.leader < |c.nodes| && from < |c.nodes|
    requires ShapedNode(c, a.leader) && Counts(c.nodes[a.leader], r)
    requires NodeOk(Counted(c.nodes[a.leader], from, a)) && R.MayCommit(Counted(c.nodes[a.leader], from, a), k)
    ensures P.CanAcknowledge(View(c), a.leader, k)
    ensures P.CanLeadCommit(Recorded(c, a.leader, k), a.leader, k, R.Replicators(Counted(c.nodes[a.leader], from, a), k))
  {
    hide LogInv, E.ElectionInv, R.MayCommit, Acked;
    var n := c.nodes[a.leader];
    var m := Counted(n, from, a);
    var q := R.Replicators(m, k);
    assert MemberOk(c, a.leader);
    LeaderTerm(c, a.leader);
    MayCommitOwn(m, k);
    forall v <- q ensures Acked(Recorded(c, a.leader, k).h, n.term, v, k) {
      ReplicatorAcked(c, from, a, r, k, v);
    }
    assert AckedByAll(Recorded(c, a.leader, k).h, n.term, q, k);
  }

  lemma CountMember(c: Cluster, from: nat, a: AppendArgs, r: AppendReply)
    requires ClusterInv(c) && AppendAnswer(from, a, r) in c.net && a.leader < |c.nodes| && from < |c.nodes|
    requires ShapedNode(c, a.leader) && Counts(c.nodes[a.leader], r)
    ensures MemberOk(DoAppendAnswer(c, from, a, r), a.leader)
  {
    hide LogInv, E.ElectionInv, HandleAppend, Known;
    var i := a.leader;
    var n := c.nodes[i];
    assert MemberOk(c, i);
    LeaderTerm(c, i);
    CountedHandle(n, from, a, r);
    var m := HandleAppend(n, from, a, r);
    var h := DoAppendAnswer(c, from, a, r).h;
    R.HandleAppendSteady(n, from, a, r);
    R.AdvanceCommitExact(Counted(n, from, a));
    forall p: nat | p < |m.matched| && p != i ensures Known(h, m, p) {
      CountedKnown(c, from, a, r, p);
      KnownStays(c.h, h, Counted(n, from, a), m, p);
    }
  }

  lemma KnownStays(h: History, h': History, n: Node, m: Node, p: nat)
    requires p < |n.matched| && m.matched == n.matched && m.term == n.term && n.commit <= m.commit
    requires h.acks <= h'.acks && Known(h, n, p)
    ensures Known(h', m, p)
  {
    if Acked(h, n.term, p, n.matched[p]) {
      AckedStays(h, h', n.term, p, n.matched[p]);
    }
  }

  /** What counting an answer changes: the leader's view of its peers and its commit index. */
  lemma CountShape(n: Node, from: nat, a: AppendArgs, r: AppendReply)
    requires NodeOk(n) && from < n.size && Counts(n, r)
    ensures var m := HandleAppend(n, from, a, r);
      && Abs(m) == Abs(n).(commit := m.commit) && n.commit <= m.commit
      && (m.commit != n.commit ==>
            NodeOk(Counted(n, from, a)) && R.MayCommit(Counted(n, from, a), m.commit))
  {
    CountedHandle(n, from, a, r);
    R.AdvanceCommitExact(Counted(n, from, a));
    R.HandleAppendSteady(n, from, a, r);
  }

  lemma CountRefines(c: Cluster, from: nat, a: AppendArgs, r: AppendReply)
    requires a.leader < |c.nodes| && from < |c.nodes| && ShapedNode(c, a.leader) && Counts(c.nodes[a.leader], r)
    ensures var m := HandleAppend(c.nodes[a.leader], from, a, r);
      View(DoAppendAnswer(c, from, a, r)) ==
      if m.commit != c.nodes[a.leader].commit
      then P.LeadCommit(Recorded(c, a.leader, m.commit), a.leader, m.commit) else View(c)
  {
    hide HandleAppend, R.MayCommit;
    var n := c.nodes[a.leader];
    var m := HandleAppend(n, from, a, r);
    CountShape(n, from, a, r);
    ViewWith(c, a.leader, m, {}, DoAppendAnswer(c, from, a, r).h);
    assert View(c).nodes[a.leader := Abs(n)] == View(c).nodes;
  }

  lemma CountGrows(c: Cluster, from: nat, a: AppendArgs, r: AppendReply)
    requires a.leader < |c.nodes| && from < |c.nodes| && ShapedNode(c, a.leader) && Counts(c.nodes[a.leader], r)
    ensures Grows(c, a.leader, HandleAppend(c.nodes[a.leader], from, a, r), DoAppendAnswer(c, from, a, r).h)
  {
    hide HandleAppend, R.MayCommit;
    CountShape(c.nodes[a.leader], from, a, r);
  }

  lemma CountLogs(c: Cluster, from: nat, a: AppendArgs, r: AppendReply)
    requires ClusterInv(c) && AppendAnswer(from, a, r) in c.net && a.leader < |c.nodes| && from < |c.nodes|
    requires ShapedNode(c, a.leader) && Counts(c.nodes[a.leader], r)
    ensures LogInv(View(DoAppendAnswer(c, from, a, r)))
  {
    hide LogInv, VoteInv, E.ElectionInv, HandleAppend, R.MayCommit, P.CanLeadCommit, DoAppendAnswer;
    var n := c.nodes[a.leader];
    var m := HandleAppend(n, from, a, r);
    InvOfView(c);
    CountShape(n, from, a, r);
    CountRefines(c, from, a, r);
    if m.commit != n.commit {
      QuorumAcked(c, from, a, r, m.commit);
      P.AcknowledgeLogs(View(c), a.leader, m.commit);
      P.LeadCommitLogs(Recorded(c, a.leader, m.commit), a.leader, m.commit, R.Replicators(Counted(n, from, a), m.commit));
    }
  }

  lemma CountUnsent(c: Cluster, from: nat, a: AppendArgs, r: AppendReply)
    requires ClusterInv(c) && AppendAnswer(from, a, r) in c.net && a.leader < |c.nodes| && from < |c.nodes|
    requires ShapedNode(c, a.leader) && Counts(c.nodes[a.leader], r)
    ensures UnsentOk(DoAppendAnswer(c, from, a, r))
  {
    hide LogInv, E.ElectionInv, HandleAppend, Free, LogsFree, RequestsFree;
    var n := c.nodes[a.leader];
    var m := HandleAppend(n, from, a, r);
    CountShape(n, from, a, r);
    CountStable(n, from, a, r);
    LeaderTerm(c, a.leader);
    assert MemberOk(c, a.leader);
    FullLog(n);
    if m.commit > n.commit {
      StablePrefixFree(c, a.leader, m.commit);
    }
    QuietUnsent(c, a.leader, m, {}, DoAppendAnswer(c, from, a, r).h);
  }

  lemma CountStable(n: Node, from: nat, a: AppendArgs, r: AppendReply)
    requires NodeOk(n) && from < n.size && Counts(n, r)
    ensures var m := HandleAppend(n, from, a, r); m.stable == n.stable && m.commit <= Min(LastIndex(n), n.stable)
  {
    CountedHandle(n, from, a, r);
    var k := Counted(n, from, a);
    R.CommitScanRange(k, Min(LastIndex(k), k.stable));
  }

  lemma AppendAnswerStep(c: Cluster, from: nat, a: AppendArgs, r: AppendReply)
    requires ClusterInv(c) && AppendAnswer(from, a, r) in c.net && a.leader < |c.nodes| && from < |c.nodes|
    requires ShapedNode(c, a.leader)
    ensures ClusterInv(DoAppendAnswer(c, from, a, r))
  {
    hide LogInv, E.ElectionInv, AdvanceCommit, Grows, UnsentOk;
    var n := c.nodes[a.leader];
    var m := HandleAppend(n, from, a, r);
    assert MemberOk(c, a.leader);
    if Counts(n, r) {
      CountLogs(c, from, a, r);
      CountGrows(c, from, a, r);
      CountMember(c, from, a, r);
      CountUnsent(c, from, a, r);
      E.AppendAnswerElection(c, from, a, r);
      Close(c, a.leader, m, {}, DoAppendAnswer(c, from, a, r).h);
    } else if r.term > n.term {
      FollowInv(c, a.leader, r.term, {});
    } else {
      QuietInv(c, a.leader, m, {});
    }
  }
}
