/** The follower's steps, snapshots and the commit rule keep ClusterInv. */
module ReplicationFollower {
  import opened RaftTypes
  import opened RaftNode
  import opened Protocol
  import opened Cluster
  import opened ReplicationInv
  import opened ReplicationSteps
  import opened UnsentEntries
  import opened LogMerge
  import P = ProtocolSteps
  import E = ElectionSafety
  import R = RaftIndices

  // ------------------------------------------------------------------ hearing from a leader

  /** A follower of a reigning term: its log and the leader's, log matching between them. */
  lemma WithLeader(c: Cluster, i: nat, t: int)
    requires ClusterInv(c) && i < |c.nodes| && t in c.h.reigns && c.nodes[i].term <= t
    ensures Matching(Full(c.nodes[i]), c.h.reigns[t].log) && Numbered(c.h.reigns[t].log, 0)
    ensures c.nodes[i].snapData <= c.h.reigns[t].log
    ensures NodeOk(c.nodes[i]) && Backed(c.nodes[i])
  {
    var n := c.nodes[i];
    assert MemberOk(c, i);
    InvOfView(c);
    assert LogOk(c.h.reigns, View(c).nodes[i]) && LineOk(c.h.reigns, t);
    RootedMatching(c.h.reigns, Full(n), c.h.reigns[t].log);
    CommittedSettled(c, i, n.snapIndex);
    assert Full(n)[..n.snapIndex] == n.snapData;
    SettledInReign(View(c), n.snapData, n.term, t);
  }

  /** The consistency check on the previous entry means the logs agree up to it. */
  lemma PrevAgrees(f: seq<Entry>, l: seq<Entry>, p: int)
    requires Matching(f, l) && 0 <= p <= |f| && p <= |l| && TermOf(f, p) == TermOf(l, p)
    ensures l[..p] <= f
  {
    if p > 0 {
      assert f[..p] == l[..p];
    }
  }

  /** The writes decided against a log that agrees with the leader's up to the previous index. */
  lemma DecidedWrites(n: Node, l: seq<Entry>, a: AppendArgs)
    requires NodeOk(n) && Backed(n) && ReceiveAppend(n, a).Paused?
    requires Matching(Full(n), l) && Numbered(l, 0) && n.snapData <= l
    requires 0 <= a.prevIndex && a.prevIndex + |a.entries| <= |l|
    requires a.entries == l[a.prevIndex..a.prevIndex + |a.entries|] && a.prevTerm == TermOf(l, a.prevIndex)
    ensures var ws := ReceiveAppend(n, a).writes;
      && Suffix(ws, a.entries)
      && l[..a.prevIndex + |a.entries| - |ws|] <= Full(n)
  {
    var m := BecomeFollower(n, a.term);
    FullLog(m);
    PrevAgrees(Full(m), l, a.prevIndex);
    assert Facing(m, l, a.prevIndex, a.entries);
    WritesAreSuffix(m, l, a.prevIndex, a.entries);
  }

  lemma PausedFollows(n: Node, a: AppendArgs)
    requires IndexOk(n) && ReceiveAppend(n, a).Paused?
    ensures ReceiveAppend(n, a).node == BecomeFollower(n, a.term) && n.term <= a.term
  {}

  /** A newly opened gap is in order. */
  lemma GapOpens(c: Cluster, i: nat, a: AppendArgs)
    requires ClusterInv(c) && i < |c.nodes| && RequestOk(c.h, a) && ShapedNode(c, i)
    requires ReceiveAppend(c.nodes[i], a).Paused?
    ensures MessageOk(DoAppend(c, i, a), Gap(i, a, ReceiveAppend(c.nodes[i], a).writes))
  {
    hide E.ElectionInv, LogInv, ReceiveAppend;
    PausedFollows(c.nodes[i], a);
    WithLeader(c, i, a.term);
    DecidedWrites(c.nodes[i], c.h.reigns[a.term].log, a);
  }

  lemma FollowGrows(c: Cluster, i: nat, t: int)
    requires i < |c.nodes| && c.nodes[i].term <= t
    ensures Grows(c, i, BecomeFollower(c.nodes[i], t), c.h)
  {}

  lemma FollowMember(c: Cluster, i: nat, t: int, sent: set<Message>)
    requires i < |c.nodes| && MemberOk(c, i)
    ensures MemberOk(With(c, i, BecomeFollower(c.nodes[i], t), sent, c.h), i)
  {}

  lemma FollowInv(c: Cluster, i: nat, t: int, sent: set<Message>)
    requires ClusterInv(c) && i < |c.nodes| && c.nodes[i].term <= t
    requires NewRequestsFree(c, sent) && forall m <- sent :: !m.AskVote? && !m.VoteAnswer?
    requires forall m <- sent :: MessageOk(With(c, i, BecomeFollower(c.nodes[i], t), sent, c.h), m)
    ensures ClusterInv(With(c, i, BecomeFollower(c.nodes[i], t), sent, c.h))
  {
    hide LogInv, E.ElectionInv, MessageOk, UnsentOk, NewRequestsFree;
    var m := BecomeFollower(c.nodes[i], t);
    InvOfView(c);
    P.FollowLogs(View(c), i, t);
    ViewWith(c, i, m, sent, c.h);
    assert View(With(c, i, m, sent, c.h)) == P.Follow(View(c), i, t);
    E.FollowElection(c, i, m, sent, c.h);
    assert MemberOk(c, i);
    FollowMember(c, i, t, sent);
    FollowGrows(c, i, t);
    QuietUnsent(c, i, m, sent, c.h);
    Close(c, i, m, sent, c.h);
  }

  /** A node that answers or asks without changing. */
  lemma QuietInv(c: Cluster, i: nat, n: Node, sent: set<Message>)
    requires ClusterInv(c) && i < |c.nodes| && Abs(n) == Abs(c.nodes[i])
    requires NodeOk(n) && Backed(n) && n.id == i && n.size == |c.nodes|
    requires n.matched == c.nodes[i].matched && n.stable >= c.nodes[i].stable && NewRequestsFree(c, sent)
    requires n.votes == c.nodes[i].votes && n.granters == c.nodes[i].granters && n.awaiting == c.nodes[i].awaiting
    requires forall m <- sent :: !m.AskVote? && !m.VoteAnswer?
    requires forall m <- sent :: MessageOk(With(c, i, n, sent, c.h), m)
    ensures ClusterInv(With(c, i, n, sent, c.h))
  {
    hide LogInv, E.ElectionInv, MessageOk, Grows, UnsentOk, NewRequestsFree;
    SameView(c, i, n);
    assert View(With(c, i, n, sent, c.h)) == View(With(c, i, n, {}, c.h));
    assert MemberOk(c, i);
    E.StayElection(c, i, n, sent, c.h);
    LeaderTerm(c, i);
    QuietMember(c, i, n, sent);
    QuietUnsent(c, i, n, sent, c.h);
    Close(c, i, n, sent, c.h);
  }

  lemma AppendStep(c: Cluster, i: nat, a: AppendArgs)
    requires ClusterInv(c) && i < |c.nodes| && AskAppend(i, a) in c.net && ShapedNode(c, i)
    ensures ClusterInv(DoAppend(c, i, a))
  {
    hide LogInv, E.ElectionInv, GapOk;
    assert MessageOk(c, AskAppend(i, a));
    assert MemberOk(c, i);
    match ReceiveAppend(c.nodes[i], a)
    case Exited =>
    case Answered(m, r) =>
      if a.term < c.nodes[i].term {
        QuietInv(c, i, m, {AppendAnswer(i, a, r)});
      } else {
        FollowInv(c, i, a.term, {AppendAnswer(i, a, r)});
      }
    case Paused(m, ws) =>
      GapOpens(c, i, a);
      FollowInv(c, i, a.term, {Gap(i, a, ws)});
  }

  // ------------------------------------------------------------------ resuming

  /** The writes of a gap are the leader's entries from index q on. */
  lemma GapWrites(c: Cluster, i: nat, a: AppendArgs, ws: seq<Write>, k: int)
    requires i < |c.nodes| && RequestOk(c.h, a) && GapOk(c, i, a, ws) && 0 <= k < |ws|
    ensures ws[k].entry == c.h.reigns[a.term].log[a.prevIndex + |a.entries| - |ws| + k]
  {
    assert ws[k].entry == a.entries[|a.entries| - |ws| + k];
  }

  lemma ResumeApplies(n: Node, a: AppendArgs, ws: seq<Write>, synced: bool)
    requires IndexOk(n) && |n.snapData| == n.snapIndex && ResumeAppend(Intended, n, a, ws, synced).1.success
    ensures Full(ResumeAppend(Intended, n, a, ws, synced).0) == n.snapData + Apply(Intended, n.log, |n.snapData|, ws)
    ensures n.term == a.term
  {}

  /** A resumed request that succeeds merges the follower's log with the leader's. */
  lemma ResumeMerges(c: Cluster, i: nat, a: AppendArgs, ws: seq<Write>, synced: bool)
    requires ClusterInv(c) && i < |c.nodes| && RequestOk(c.h, a) && GapOk(c, i, a, ws) && ShapedNode(c, i)
    requires ResumeAppend(Intended, c.nodes[i], a, ws, synced).1.success
    ensures var f' := Full(ResumeAppend(Intended, c.nodes[i], a, ws, synced).0);
      var l := c.h.reigns[a.term].log;
      && P.CanAdopt(View(c), i, f')
      && l[..a.prevIndex + |a.entries|] <= f' && Numbered(f', 0)
      && (f' == Full(c.nodes[i]) || f' <= l[..a.prevIndex + |a.entries|])
  {
    hide E.ElectionInv, LogInv, ResumeAppend;
    var n := c.nodes[i];
    var l := c.h.reigns[a.term].log;
    var q := a.prevIndex + |a.entries| - |ws|;
    assert MemberOk(c, i);
    ResumeApplies(n, a, ws, synced);
    WithLeader(c, i, a.term);
    FullLog(n);
    forall k | 0 <= k < |ws| ensures ws[k].entry == l[q + k] {
      GapWrites(c, i, a, ws, k);
    }
    ApplyMerges(n.snapData, n.log, l, q, ws);
    MergesNumbered(Full(n), n.snapData + Apply(Intended, n.log, n.snapIndex, ws), l);
  }

  lemma ResumeFields(n: Node, a: AppendArgs, ws: seq<Write>, synced: bool)
    requires IndexOk(n) && ResumeAppend(Intended, n, a, ws, synced).1.success
    ensures var m := ResumeAppend(Intended, n, a, ws, synced).0;
      m == n.(log := m.log, stable := LastIndex(m),
              commit := if a.leaderCommit > n.commit then Min(a.leaderCommit, LastIndex(m)) else n.commit)
  {}

  /** The node after a successful resume: its indices are in order and its commit is settled. */
  lemma ResumedNode(c: Cluster, i: nat, a: AppendArgs, ws: seq<Write>, synced: bool)
    requires ClusterInv(c) && i < |c.nodes| && RequestOk(c.h, a) && GapOk(c, i, a, ws) && ShapedNode(c, i)
    requires ResumeAppend(Intended, c.nodes[i], a, ws, synced).1.success
    ensures var m := ResumeAppend(Intended, c.nodes[i], a, ws, synced).0;
      && IndexOk(m) && Backed(m) && LastIndex(m) == |Full(m)|
      && m.commit == Max(c.nodes[i].commit, a.leaderCommit)
      && m == c.nodes[i].(log := m.log, stable := LastIndex(m), commit := m.commit)
  {
    hide E.ElectionInv, LogInv, ClusterInv, ResumeAppend, P.CanAdopt;
    var n := c.nodes[i];
    Member(c, i);
    var (m, r) := ResumeAppend(Intended, n, a, ws, synced);
    ResumeMerges(c, i, a, ws, synced);
    ResumeFields(n, a, ws, synced);
    forall k | 0 <= k < |m.log| ensures m.log[k].index == m.snapIndex + 1 + k {
      assert m.log[k] == Full(m)[m.snapIndex + k];
    }
    FullLog(m);
  }

  lemma ResumeLogs(c: Cluster, i: nat, a: AppendArgs, ws: seq<Write>, synced: bool)
    requires ClusterInv(c) && i < |c.nodes| && RequestOk(c.h, a) && GapOk(c, i, a, ws) && ShapedNode(c, i)
    requires ResumeAppend(Intended, c.nodes[i], a, ws, synced).1.success
    ensures LogInv(View(DoResume(Intended, c, i, a, ws, synced)))
  {
    hide E.ElectionInv, LogInv, VoteInv, P.CanAdopt, ResumeAppend, GapOk, Resumed, View;
    InvOfView(c);
    ResumeMerges(c, i, a, ws, synced);
    ResumedNode(c, i, a, ws, synced);
    ResumeFollows(c, i, a, ws, synced);
    var (m, r) := ResumeAppend(Intended, c.nodes[i], a, ws, synced);
    ResumeChain(c, i, a, m);
    ResumeRefines(c, i, a, m, r);
  }

  lemma ResumeRefines(c: Cluster, i: nat, a: AppendArgs, m: Node, r: AppendReply)
    requires i < |c.nodes| && m.term == c.nodes[i].term && m.vote == c.nodes[i].vote && m.role == c.nodes[i].role
    ensures var h := c.h.(acks := c.h.acks + {Ack(m.term, i, a.prevIndex + |a.entries|)});
      View(With(c, i, m, {AppendAnswer(i, a, r)}, h))
      == Resumed(View(c), i, Full(m), a.prevIndex + |a.entries|, m.commit)
  {
    var h := c.h.(acks := c.h.acks + {Ack(m.term, i, a.prevIndex + |a.entries|)});
    ViewWith(c, i, m, {AppendAnswer(i, a, r)}, h);
  }

  lemma ResumeFollows(c: Cluster, i: nat, a: AppendArgs, ws: seq<Write>, synced: bool)
    requires i < |c.nodes| && ShapedNode(c, i) && ResumeAppend(Intended, c.nodes[i], a, ws, synced).1.success
    ensures c.nodes[i].term == a.term
  {}

  /** Adopting, acknowledging and learning the commit, in the protocol. */
  function Resumed(s: State, i: nat, f: seq<Entry>, k: int, m: int): State
    requires i < |s.nodes|
  {
    P.LearnCommit(P.Acknowledge(P.Adopt(s, i, f), i, k), i, m)
  }

  lemma ResumeChain(c: Cluster, i: nat, a: AppendArgs, m: Node)
    requires ClusterInv(c) && i < |c.nodes| && RequestOk(c.h, a)
    requires P.CanAdopt(View(c), i, Full(m)) && c.nodes[i].term == a.term
    requires c.h.reigns[a.term].log[..a.prevIndex + |a.entries|] <= Full(m)
    requires m.commit == Max(c.nodes[i].commit, a.leaderCommit)
    ensures Inv(Resumed(View(c), i, Full(m), a.prevIndex + |a.entries|, m.commit))
  {
    hide LogInv, VoteInv, P.CanAdopt;
    InvOfView(c);
    var s := View(c);
    var s1 := P.Adopt(s, i, Full(m));
    P.AdoptLogs(s, i, Full(m));
    P.FrameVotes(s, s1);
    var s2 := P.Acknowledge(s1, i, a.prevIndex + |a.entries|);
    P.AcknowledgeLogs(s1, i, a.prevIndex + |a.entries|);
    ResumeCommit(s2, c.h, i, a, m);
    P.LearnCommitLogs(s2, i, m.commit);
  }

  lemma ResumeCommit(s: State, h: History, i: nat, a: AppendArgs, m: Node)
    requires Inv(s) && i < |s.nodes| && s.nodes[i].log == Full(m) && s.nodes[i].term == a.term
    requires RequestOk(h, a) && HistoryGrows(h, s.h) && h.reigns == s.h.reigns
    requires h.reigns[a.term].log[..a.prevIndex + |a.entries|] <= Full(m)
    requires m.commit == Max(s.nodes[i].commit, a.leaderCommit)
    ensures P.CanLearnCommit(s, i, m.commit)
  {
    hide VoteInv;
    var l := h.reigns[a.term].log;
    assert 0 <= s.nodes[i].commit <= |Full(m)| && Settled(s.h, Full(m)[..s.nodes[i].commit], a.term);
    assert l[..a.leaderCommit] == Full(m)[..a.leaderCommit] by {
      assert l[..a.leaderCommit] == l[..a.prevIndex + |a.entries|][..a.leaderCommit];
    }
    SettledGrows(h, s.h, l[..a.leaderCommit], a.term);
  }

  lemma ResumeGrows(c: Cluster, i: nat, a: AppendArgs, ws: seq<Write>, synced: bool)
    requires ClusterInv(c) && i < |c.nodes| && RequestOk(c.h, a) && GapOk(c, i, a, ws) && ShapedNode(c, i)
    requires ResumeAppend(Intended, c.nodes[i], a, ws, synced).1.success
    ensures Grows(c, i, ResumeAppend(Intended, c.nodes[i], a, ws, synced).0, DoResume(Intended, c, i, a, ws, synced).h)
  {
    hide E.ElectionInv, LogInv, ResumeAppend;
    ResumeFollows(c, i, a, ws, synced);
    ResumeMerges(c, i, a, ws, synced);
    ResumedNode(c, i, a, ws, synced);
  }

  lemma ResumeMember(c: Cluster, i: nat, a: AppendArgs, ws: seq<Write>, synced: bool)
    requires ClusterInv(c) && i < |c.nodes| && RequestOk(c.h, a) && GapOk(c, i, a, ws) && ShapedNode(c, i)
    requires ResumeAppend(Intended, c.nodes[i], a, ws, synced).1.success
    requires CommitIndicesOk(View(DoResume(Intended, c, i, a, ws, synced)))
    ensures MemberOk(DoResume(Intended, c, i, a, ws, synced), i)
    ensures Acked(DoResume(Intended, c, i, a, ws, synced).h, a.term, i, a.prevIndex + |a.entries|)
  {
    hide E.ElectionInv, LogInv, ResumeAppend;
    ResumeFollows(c, i, a, ws, synced);
    ResumedNode(c, i, a, ws, synced);
    var c' := DoResume(Intended, c, i, a, ws, synced);
    assert View(c').nodes[i].commit <= |View(c').nodes[i].log|;
    assert Ack(a.term, i, a.prevIndex + |a.entries|) in c'.h.acks;
  }

  /** Nothing is unsent afterwards, and nothing was taken from another node that it has not sent. */
  lemma ResumeUnsent(c: Cluster, i: nat, a: AppendArgs, ws: seq<Write>, synced: bool)
    requires ClusterInv(c) && i < |c.nodes| && Gap(i, a, ws) in c.net && ShapedNode(c, i)
    requires ResumeAppend(Intended, c.nodes[i], a, ws, synced).1.success
    ensures UnsentOk(DoResume(Intended, c, i, a, ws, synced))
  {
    hide E.ElectionInv, LogInv, ResumeAppend, P.CanAdopt, FreeBut;
    var (m, r) := ResumeAppend(Intended, c.nodes[i], a, ws, synced);
    assert MessageOk(c, Gap(i, a, ws));
    ResumeFollows(c, i, a, ws, synced);
    ResumeMerges(c, i, a, ws, synced);
    ResumedNode(c, i, a, ws, synced);
    assert SentOk(c, a.term, Reach(a)) by {
      assert IsRequest(Gap(i, a, ws));
    }
    if Full(m) != Full(c.nodes[i]) {
      FreeForAll(c, i, c.h.reigns[a.term].log[..Reach(a)], Full(m));
    }
    SettledUnsent(c, i, m, {AppendAnswer(i, a, r)}, DoResume(Intended, c, i, a, ws, synced).h);
  }

  lemma FreeForAll(c: Cluster, i: nat, f: seq<Entry>, f': seq<Entry>)
    requires Free(c, f) && f' <= f
    ensures FreeBut(c, i, f')
  {}

  lemma ResumeStep(c: Cluster, i: nat, a: AppendArgs, ws: seq<Write>, synced: bool)
    requires ClusterInv(c) && i < |c.nodes| && Gap(i, a, ws) in c.net && ShapedNode(c, i)
    ensures ClusterInv(DoResume(Intended, c, i, a, ws, synced))
  {
    hide LogInv, E.ElectionInv, GapOk, ResumeAppend, Grows, UnsentOk;
    var (m, r) := ResumeAppend(Intended, c.nodes[i], a, ws, synced);
    assert MessageOk(c, Gap(i, a, ws));
    assert MemberOk(c, i);
    ResumeReply(c.nodes[i], a, ws, synced);
    if r.success {
      ResumeLogs(c, i, a, ws, synced);
      E.ResumeElection(Intended, c, i, a, ws, synced);
      CommitPart(View(DoResume(Intended, c, i, a, ws, synced)));
      ResumeMember(c, i, a, ws, synced);
      ResumeGrows(c, i, a, ws, synced);
      ResumeUnsent(c, i, a, ws, synced);
      Close(c, i, m, {AppendAnswer(i, a, r)}, DoResume(Intended, c, i, a, ws, synced).h);
    } else {
      QuietInv(c, i, m, {AppendAnswer(i, a, r)});
    }
  }

  lemma CommitPart(s: State)
    requires LogInv(s)
    ensures CommitIndicesOk(s)
  {}

  lemma ResumeReply(n: Node, a: AppendArgs, ws: seq<Write>, synced: bool)
    requires IndexOk(n)
    ensures var (m, r) := ResumeAppend(Intended, n, a, ws, synced);
      (r.success ==> r.term == a.term) && (!r.success ==> m == n)
  {}
}
