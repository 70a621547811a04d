/**
  What ties the cluster's messages, gaps and indices to the protocol's logs, and why it survives the
  steps of others.
 */
module ReplicationInv {
  import opened RaftTypes
  import opened RaftNode
  import opened Protocol
  import opened Cluster
  import opened UnsentEntries
  import P = ProtocolSteps
  import E = ElectionSafety

  // ------------------------------------------------------------------ full logs

  /** The snapshot covers exactly the indices up to snapIndex, and knows its last term. */
  ghost predicate Backed(n: Node) {
    && |n.snapData| == n.snapIndex
    && n.snapTerm == P.EndTerm(n.snapData)
    && Numbered(n.snapData, 0)
  }

  /** The term at index i of a full log; index 0 precedes the log. */
  function TermOf(f: seq<Entry>, i: int): int
    requires 0 <= i <= |f|
  {
    if i == 0 then 0 else f[i - 1].term
  }

  lemma FullLog(n: Node)
    requires Backed(n) && IndexOk(n)
    ensures LastIndex(n) == |Full(n)|
    ensures RaftNode.LastTerm(n) == P.EndTerm(Full(n))
    ensures Numbered(Full(n), 0)
    ensures forall i :: Holds(n, i) ==> TermAt(n, i) == TermOf(Full(n), i)
  {}

  // ------------------------------------------------------------------ messages

  /** A request of the leader of its term: a slice of that leader's log. */
  ghost predicate RequestOk(h: History, a: AppendArgs) {
    && a.term in h.reigns && h.reigns[a.term].node == a.leader
    && var l := h.reigns[a.term].log;
    && 0 <= a.prevIndex <= a.prevIndex + |a.entries| <= |l|
    && l[a.prevIndex..a.prevIndex + |a.entries|] == a.entries
    && a.prevTerm == TermOf(l, a.prevIndex)
    && 0 <= a.leaderCommit <= a.prevIndex + |a.entries|
    && Settled(h, l[..a.leaderCommit], a.term)
  }

  /** The decided writes are the entries that were not yet shared, and the shared ones still are. */
  ghost predicate GapOk(c: Cluster, i: nat, a: AppendArgs, ws: seq<Write>)
    requires i < |c.nodes| && RequestOk(c.h, a)
  {
    && a.term <= c.nodes[i].term
    && |ws| <= |a.entries|
    && (forall k :: 0 <= k < |ws| ==> ws[k].entry == a.entries[|a.entries| - |ws| + k])
    && (a.term == c.nodes[i].term ==>
          && c.nodes[i].role == Follower
          && c.h.reigns[a.term].log[..a.prevIndex + |a.entries| - |ws|] <= Full(c.nodes[i]))
  }

  /** A snapshot on its way: a committed prefix, known to the sender. */
  ghost predicate SnapshotOk(c: Cluster, s: SnapshotArgs) {
    && s.lastIndex == |s.data| && s.lastTerm == P.EndTerm(s.data) && Numbered(s.data, 0)
    && Settled(c.h, s.data, s.term)
    && s.leader < |c.nodes| && s.term <= c.nodes[s.leader].term
    && |s.data| <= c.nodes[s.leader].commit
  }

  ghost predicate Leading(c: Cluster, t: int)
    requires t in c.h.reigns
  {
    var j := c.h.reigns[t].node;
    j < |c.nodes| && c.nodes[j].role == Leader && c.nodes[j].term == t
  }

  /** A candidate's log as it describes it, or as it did before it gave up entries of a term that is over. */
  ghost predicate ClaimOk(c: Cluster, v: VoteArgs, f: seq<Entry>) {
    || (v.lastIndex == |f| && v.lastTerm == P.EndTerm(f))
    || (v.lastTerm in c.h.reigns && !Leading(c, v.lastTerm) && v.lastTerm < v.term
        && c.h.reigns[v.lastTerm].log <= f)
  }

  ghost predicate MessageOk(c: Cluster, m: Message) {
    match m
    case AskVote(v) =>
      v.candidate < |c.nodes| && Standing(View(c), v.candidate, v.term) ==> ClaimOk(c, v, Full(c.nodes[v.candidate]))
    case VoteAnswer(_, _, _) => true
    case AskAppend(_, a) => RequestOk(c.h, a)
    case Gap(i, a, ws) => i < |c.nodes| && RequestOk(c.h, a) && GapOk(c, i, a, ws)
    case AppendAnswer(from, a, r) =>
      r.success ==> r.term == a.term && Acked(c.h, a.term, from, a.prevIndex + |a.entries|)
    case AskInstall(s) => SnapshotOk(c, s)
    case InstallAnswer(_, s, t) => SnapshotOk(c, s) && s.term <= t
  }

  // ------------------------------------------------------------------ nodes

  /** What a leader knows of peer p is committed, or p has acknowledged it. */
  ghost predicate Known(h: History, n: Node, p: nat)
    requires p < |n.matched|
  {
    n.matched[p] <= n.commit || Acked(h, n.term, p, n.matched[p])
  }

  ghost predicate LeaderOk(c: Cluster, i: nat)
    requires i < |c.nodes|
  {
    var n := c.nodes[i];
    n.role == Leader && n.term in c.h.reigns ==>
      forall p: nat :: p < |n.matched| && p != i ==> Known(c.h, n, p)
  }

  ghost predicate MemberOk(c: Cluster, i: nat)
    requires i < |c.nodes|
  {
    ShapedNode(c, i) && Backed(c.nodes[i]) && LeaderOk(c, i)
  }

  ghost predicate MembersOk(c: Cluster) {
    forall i :: 0 <= i < |c.nodes| ==> MemberOk(c, i)
  }

  ghost predicate MessagesOk(c: Cluster) {
    forall m <- c.net :: MessageOk(c, m)
  }

  ghost predicate ReignsNumbered(r: Reigns) {
    forall t <- r :: Numbered(r[t].log, 0)
  }

  /** The invariant of the repaired cluster. */
  ghost predicate ClusterInv(c: Cluster) {
    && E.ElectionInv(c) && LogInv(View(c))
    && MembersOk(c) && MessagesOk(c) && ReignsNumbered(c.h.reigns) && UnsentOk(c)
  }

  lemma Member(c: Cluster, i: nat)
    requires ClusterInv(c) && i < |c.nodes|
    ensures MemberOk(c, i)
  {}

  lemma InvOfView(c: Cluster)
    requires ClusterInv(c)
    ensures Inv(View(c)) && VoteInv(View(c)) && LinesOk(c.h.reigns) && LogsOk(View(c))
  {}

  // ------------------------------------------------------------------ steps only add

  /** What f shares with l, f' shares too. */
  ghost predicate KeepsCommon(f: seq<Entry>, f': seq<Entry>, l: seq<Entry>) {
    forall k :: 0 <= k <= |f| && k <= |l| && f[..k] == l[..k] ==> f[..k] <= f'
  }

  ghost predicate NodeGrows(r: Reigns, n: Node, n': Node) {
    && n.term <= n'.term && n.commit <= n'.commit
    && (n'.term == n.term && n'.role == Candidate ==> n.role == Candidate && Full(n') == Full(n))
    && (n'.term == n.term && n.role == Follower ==> n'.role == Follower)
    && (n'.term == n.term && n.role == Follower && n.term in r ==>
          KeepsCommon(Full(n), Full(n'), r[n.term].log))
    && (n'.role == Leader && n'.term in r ==> n.role == Leader && n.term == n'.term)
  }

  ghost predicate HistoryGrows(h: History, h': History) {
    Extends(h.reigns, h'.reigns) && h.votes <= h'.votes && h.acks <= h'.acks && h.commits <= h'.commits
  }

  /** Only a term's leader adds to its record. */
  ghost predicate PastReignsStay(c: Cluster, h': History) {
    forall t <- c.h.reigns :: t in h'.reigns && (Leading(c, t) || h'.reigns[t].log == c.h.reigns[t].log)
  }

  ghost predicate Grows(c: Cluster, i: nat, n: Node, h: History)
    requires i < |c.nodes|
  {
    && NodeGrows(c.h.reigns, c.nodes[i], n)
    && HistoryGrows(c.h, h) && PastReignsStay(c, h)
  }

  lemma AckedStays(h: History, h': History, t: int, v: nat, k: int)
    requires Acked(h, t, v, k) && h.acks <= h'.acks
    ensures Acked(h', t, v, k)
  {}

  lemma SettledGrows(h: History, h': History, p: seq<Entry>, hi: int)
    requires HistoryGrows(h, h') && Settled(h, p, hi)
    ensures Settled(h', p, hi)
  {
    SettledStays(h, h', p, hi, hi);
  }

  lemma RequestStays(h: History, h': History, a: AppendArgs)
    requires HistoryGrows(h, h') && RequestOk(h, a)
    ensures RequestOk(h', a)
    ensures forall k :: 0 <= k <= |h.reigns[a.term].log| ==>
              h'.reigns[a.term].log[..k] == h.reigns[a.term].log[..k]
  {
    var l, l' := h.reigns[a.term].log, h'.reigns[a.term].log;
    assert l == l'[..|l|];
    SettledGrows(h, h', l[..a.leaderCommit], a.term);
  }

  lemma GapStays(c: Cluster, i: nat, n: Node, sent: set<Message>, h: History, j: nat, a: AppendArgs, ws: seq<Write>)
    requires i < |c.nodes| && Grows(c, i, n, h) && j < |c.nodes| && RequestOk(c.h, a) && GapOk(c, j, a, ws)
    ensures RequestOk(h, a) && GapOk(With(c, i, n, sent, h), j, a, ws)
  {
    RequestStays(c.h, h, a);
    var q := a.prevIndex + |a.entries| - |ws|;
    if a.term == With(c, i, n, sent, h).nodes[j].term && j == i {
      assert Full(c.nodes[i])[..q] == c.h.reigns[a.term].log[..q];
    }
  }

  lemma StandingStays(c: Cluster, i: nat, n: Node, sent: set<Message>, h: History, j: nat, t: int)
    requires i < |c.nodes| && Grows(c, i, n, h)
    requires Standing(View(With(c, i, n, sent, h)), j, t)
    requires j < |c.nodes| ==> t <= c.nodes[j].term
    ensures Standing(View(c), j, t) && Full(With(c, i, n, sent, h).nodes[j]) == Full(c.nodes[j])
  {}

  lemma SnapshotStays(c: Cluster, i: nat, n: Node, sent: set<Message>, h: History, s: SnapshotArgs)
    requires i < |c.nodes| && Grows(c, i, n, h) && SnapshotOk(c, s)
    ensures SnapshotOk(With(c, i, n, sent, h), s)
  {
    SettledGrows(c.h, h, s.data, s.term);
  }

  lemma AskVoteStays(c: Cluster, i: nat, n: Node, sent: set<Message>, h: History, v: VoteArgs)
    requires i < |c.nodes| && Grows(c, i, n, h) && MessageOk(c, AskVote(v))
    requires v.candidate < |c.nodes| && v.term <= c.nodes[v.candidate].term
    ensures MessageOk(With(c, i, n, sent, h), AskVote(v))
  {
    if Standing(View(With(c, i, n, sent, h)), v.candidate, v.term) {
      StandingStays(c, i, n, sent, h, v.candidate, v.term);
    }
  }

  lemma MessageStays(c: Cluster, i: nat, n: Node, sent: set<Message>, h: History, m: Message)
    requires i < |c.nodes| && Grows(c, i, n, h) && MessageOk(c, m) && E.VoteMessageOk(c, m)
    ensures MessageOk(With(c, i, n, sent, h), m)
  {
    match m
    case AskVote(v) => AskVoteStays(c, i, n, sent, h, v);
    case VoteAnswer(_, _, _) =>
    case AskAppend(_, a) => RequestStays(c.h, h, a);
    case Gap(j, a, ws) => GapStays(c, i, n, sent, h, j, a, ws);
    case AppendAnswer(from, a, r) =>
      if r.success { AckedStays(c.h, h, a.term, from, a.prevIndex + |a.entries|); }
    case AskInstall(s) => SnapshotStays(c, i, n, sent, h, s);
    case InstallAnswer(_, s, _) => SnapshotStays(c, i, n, sent, h, s);
  }

  lemma LeaderStays(c: Cluster, i: nat, n: Node, sent: set<Message>, h: History, j: nat)
    requires i < |c.nodes| && Grows(c, i, n, h) && j < |c.nodes| && j != i && LeaderOk(c, j)
    requires c.nodes[j].role == Leader ==> c.nodes[j].term in c.h.reigns
    ensures LeaderOk(With(c, i, n, sent, h), j)
  {
    var m := c.nodes[j];
    if m.role == Leader {
      forall p: nat | p < |m.matched| && p != j ensures Known(h, m, p) {
        assert Known(c.h, m, p);
        if Acked(c.h, m.term, p, m.matched[p]) {
          AckedStays(c.h, h, m.term, p, m.matched[p]);
        }
      }
    }
  }

  lemma LeadersReign(c: Cluster, j: nat)
    requires VoteInv(View(c)) && j < |c.nodes| && c.nodes[j].role == Leader
    ensures c.nodes[j].term in c.h.reigns && c.h.reigns[c.nodes[j].term].node == j
  {
    assert View(c).nodes[j].role == Leader;
  }

  lemma OthersMembers(c: Cluster, i: nat, n: Node, sent: set<Message>, h: History)
    requires ClusterInv(c) && i < |c.nodes| && Grows(c, i, n, h)
    requires MemberOk(With(c, i, n, sent, h), i)
    ensures MembersOk(With(c, i, n, sent, h))
  {
    hide LogInv, LeaderOk, VoteInv;
    var c' := With(c, i, n, sent, h);
    forall j | 0 <= j < |c'.nodes| ensures MemberOk(c', j) {
      assert MemberOk(c, j);
      if j != i {
        if c.nodes[j].role == Leader {
          LeadersReign(c, j);
        }
        LeaderStays(c, i, n, sent, h, j);
      }
    }
  }

  lemma OldMessages(c: Cluster, i: nat, n: Node, sent: set<Message>, h: History)
    requires ClusterInv(c) && i < |c.nodes| && Grows(c, i, n, h)
    requires forall m <- sent :: MessageOk(With(c, i, n, sent, h), m)
    ensures MessagesOk(With(c, i, n, sent, h))
  {
    hide LogInv, MessageOk, Grows;
    var c' := With(c, i, n, sent, h);
    forall m <- c'.net ensures MessageOk(c', m) {
      if m !in sent {
        assert E.VoteMessageOk(c, m);
        MessageStays(c, i, n, sent, h, m);
      }
    }
  }

  /** A step of node i that only adds keeps the invariant, given what it does to node i itself. */
  lemma Close(c: Cluster, i: nat, n: Node, sent: set<Message>, h: History)
    requires ClusterInv(c) && i < |c.nodes| && Grows(c, i, n, h)
    requires E.ElectionInv(With(c, i, n, sent, h)) && LogInv(View(With(c, i, n, sent, h)))
    requires MemberOk(With(c, i, n, sent, h), i) && ReignsNumbered(h.reigns) && UnsentOk(With(c, i, n, sent, h))
    requires forall m <- sent :: MessageOk(With(c, i, n, sent, h), m)
    ensures ClusterInv(With(c, i, n, sent, h))
  {
    hide LogInv, MessageOk, Grows, MemberOk, UnsentOk;
    OthersMembers(c, i, n, sent, h);
    OldMessages(c, i, n, sent, h);
  }
}
