/** Snapshots, taken and installed, keep ClusterInv. */
module ReplicationSnapshots {
  import opened RaftTypes
  import opened RaftNode
  import opened Protocol
  import opened Cluster
  import opened ReplicationInv
  import opened ReplicationSteps
  import opened ReplicationFollower
  import opened UnsentEntries
  import opened LogMerge
  import P = ProtocolSteps
  import E = ElectionSafety
  import R = RaftIndices

  // ------------------------------------------------------------------ local steps

  lemma TakeKeeps(n: Node, index: int)
    requires NodeOk(n) && Backed(n)
    ensures var m := TakeSnapshot(n, index); Full(m) == Full(n) && Backed(m) && NodeOk(m) && Abs(m) == Abs(n)
  {
    var m := TakeSnapshot(n, index);
    FullLog(n);
    if m != n {
      var k := index - n.snapIndex;
      assert n.log == n.log[..k] + n.log[k..];
      assert Full(m) == Full(n);
      assert m.snapData == Full(n)[..index];
    }
  }

  lemma LocalStep(c: Cluster, i: nat, index: int)
    requires ClusterInv(c) && i < |c.nodes| && ShapedNode(c, i)
    ensures ClusterInv(DoSynced(c, i, index))
    ensures ClusterInv(DoCompact(c, i, index))
    ensures ClusterInv(DoApplyRound(c, i))
  {
    hide ClusterInv;
    assert MemberOk(c, i) by { Member(c, i); }
    TakeKeeps(c.nodes[i], index);
    QuietInv(c, i, LogStable(c.nodes[i], index), {});
    QuietInv(c, i, TakeSnapshot(c.nodes[i], index), {});
    QuietInv(c, i, ApplyCommitted(c.nodes[i]).0, {});
  }

  lemma SendStep(c: Cluster, i: nat)
    requires ClusterInv(c) && i < |c.nodes| && ShapedNode(c, i)
    ensures ClusterInv(DoSendSnapshot(c, i))
  {
    hide LogInv, E.ElectionInv;
    var n := c.nodes[i];
    assert MemberOk(c, i);
    CommittedSettled(c, i, n.snapIndex);
    assert Full(n)[..n.snapIndex] == n.snapData;
    SameView(c, i, n);
    assert View(DoSendSnapshot(c, i)) == View(c);
    QuietInv(c, i, n, {AskInstall(SnapshotRequest(n))});
  }

  // ------------------------------------------------------------------ installing

  /** The snapshot reaches beyond the node's own: the log is kept if it agrees at the snapshot's end. */
  lemma InstalledTail(n: Node, s: SnapshotArgs)
    requires NodeOk(n) && Backed(n) && n.term <= s.term && s.lastIndex > n.snapIndex
    requires s.lastIndex == |s.data| && s.lastTerm == P.EndTerm(s.data) && Matching(Full(n), s.data)
    ensures s.data + InstallSnapshot(Intended, n, s).log == (if s.data <= Full(n) then Full(n) else s.data)
  {
    FullLog(n);
    var f := Full(n);
    var d := s.data;
    var m := InstallSnapshot(Intended, n, s);
    if |f| > s.lastIndex && f[s.lastIndex - 1].term == s.lastTerm {
      assert f[..s.lastIndex] == d[..s.lastIndex] == d;
      assert m.log == f[s.lastIndex..];
    } else {
      assert m.log == [];
      if d <= f {
        PrefixLastTerm(f, d);
      }
    }
  }

  lemma InstalledIndices(n: Node, s: SnapshotArgs)
    requires NodeOk(n) && n.term <= s.term && s.lastIndex > n.snapIndex
    ensures var m := InstallSnapshot(Intended, n, s);
      && IndexOk(m) && m.snapData == s.data && m.snapTerm == s.lastTerm && m.snapIndex == s.lastIndex
      && m.commit == Max(n.commit, s.lastIndex) && m.applied == Max(n.applied, s.lastIndex)
      && m.stable == Min(Max(n.stable, s.lastIndex), s.lastIndex + |m.log|)
      && m.term == s.term && m.role == Follower && m.vote == BecomeFollower(n, s.term).vote
  {}

  /** The log after an installation: unchanged if it held the snapshot's entries, just them otherwise. */
  lemma InstalledLog(n: Node, s: SnapshotArgs)
    requires NodeOk(n) && Backed(n) && n.term <= s.term
    requires s.lastIndex == |s.data| && s.lastTerm == P.EndTerm(s.data) && Numbered(s.data, 0)
    requires Matching(Full(n), s.data)
    requires s.lastIndex <= n.snapIndex ==> s.data <= Full(n)
    ensures var m := InstallSnapshot(Intended, n, s);
      && Full(m) == (if s.data <= Full(n) then Full(n) else s.data)
      && Backed(m) && IndexOk(m) && LastIndex(m) == |Full(m)|
      && m.commit == Max(n.commit, s.lastIndex) && m.applied == Max(n.applied, s.lastIndex)
      && m.snapIndex == Max(n.snapIndex, s.lastIndex)
      && (s.lastIndex > n.snapIndex ==> m.stable == Min(Max(n.stable, s.lastIndex), LastIndex(m)))
      && (s.lastIndex <= n.snapIndex ==> m == BecomeFollower(n, s.term))
      && m.term == s.term && m.role == Follower && m.vote == BecomeFollower(n, s.term).vote
  {
    FullLog(n);
    if s.lastIndex > n.snapIndex {
      hide InstallSnapshot, Matching;
      InstalledTail(n, s);
      InstalledIndices(n, s);
    }
  }

  lemma PrefixLastTerm(f: seq<Entry>, d: seq<Entry>)
    requires d != [] && d <= f
    ensures f[|d| - 1].term == P.EndTerm(d)
  {
    assert d[|d| - 1] == f[|d| - 1];
  }

  /** The node's log, its snapshot and an incoming snapshot never contradict each other. */
  lemma SnapshotFits(c: Cluster, i: nat, s: SnapshotArgs)
    requires ClusterInv(c) && i < |c.nodes| && SnapshotOk(c, s) && ShapedNode(c, i)
    ensures Matching(Full(c.nodes[i]), s.data)
    ensures s.lastIndex <= c.nodes[i].snapIndex ==> s.data <= Full(c.nodes[i])
    ensures Backed(c.nodes[i])
  {
    hide E.ElectionInv, LogInv;
    var n := c.nodes[i];
    InvOfView(c);
    assert MemberOk(c, i);
    assert LogOk(c.h.reigns, View(c).nodes[i]);
    P.SettledRooted(c.h, s.data, s.term);
    RootedMatching(c.h.reigns, Full(n), s.data);
    CommittedSettled(c, i, n.snapIndex);
    assert Full(n)[..n.snapIndex] == n.snapData;
    SettledCompare(View(c), s.data, n.snapData, s.term, n.term);
  }

  lemma InstallGrows(c: Cluster, i: nat, s: SnapshotArgs)
    requires ClusterInv(c) && i < |c.nodes| && SnapshotOk(c, s) && ShapedNode(c, i) && c.nodes[i].term <= s.term
    ensures Grows(c, i, InstallSnapshot(Intended, c.nodes[i], s), DoInstall(Intended, c, i, s).h)
  {
    hide E.ElectionInv, LogInv, VoteInv, InstallSnapshot, SnapshotOk, Settled, Matching, Backed, IndexOk;
    SnapshotParts(c, s);
    var n := c.nodes[i];
    SnapshotFits(c, i, s);
    InstalledLog(n, s);
    if n.term == s.term && s.term in c.h.reigns {
      InvOfView(c);
      SettledInReign(View(c), s.data, s.term, s.term);
      InstallCommon(Full(n), s.data, c.h.reigns[s.term].log);
    }
  }

  lemma InstallCommon(f: seq<Entry>, d: seq<Entry>, l: seq<Entry>)
    requires d <= l
    ensures KeepsCommon(f, if d <= f then f else d, l)
  {
    forall k | 0 <= k <= |f| && k <= |l| && f[..k] == l[..k] ensures f[..k] <= (if d <= f then f else d) {
      PrefixesCompare(f[..k], d, l);
    }
  }

  /** Following, installing and learning the commit, in the protocol. */
  function Installed(s: State, i: nat, t: int, f: seq<Entry>, k: int): State
    requires i < |s.nodes| && s.nodes[i].term <= t
  {
    P.LearnCommit(P.Adopt(P.Follow(s, i, t), i, f), i, k)
  }

  lemma InstallChain(s: State, i: nat, t: int, d: seq<Entry>, k: int)
    requires Inv(s) && i < |s.nodes| && s.nodes[i].term <= t && Settled(s.h, d, t)
    requires k == Max(s.nodes[i].commit, |d|)
    ensures Inv(Installed(s, i, t, if d <= s.nodes[i].log then s.nodes[i].log else d, k))
  {
    hide VoteInv, LogInv;
    var f := if d <= s.nodes[i].log then s.nodes[i].log else d;
    P.FollowVotes(s, i, t);
    P.FollowLogs(s, i, t);
    var s1 := P.Follow(s, i, t);
    var s2 := P.Adopt(s1, i, f);
    P.InstallLogs(s1, i, d, f);
    P.FrameVotes(s1, s2);
    InstallCommit(s2, i, d, k);
    P.LearnCommitLogs(s2, i, k);
  }

  lemma InstallCommit(s: State, i: nat, d: seq<Entry>, k: int)
    requires LogInv(s) && i < |s.nodes| && d <= s.nodes[i].log && Settled(s.h, d, s.nodes[i].term)
    requires k == Max(s.nodes[i].commit, |d|)
    ensures P.CanLearnCommit(s, i, k)
  {
    var n := s.nodes[i];
    assert 0 <= n.commit <= |n.log| && Settled(s.h, n.log[..n.commit], n.term);
    assert n.log[..|d|] == d;
  }

  lemma InstallLogs(c: Cluster, i: nat, s: SnapshotArgs)
    requires ClusterInv(c) && i < |c.nodes| && SnapshotOk(c, s) && ShapedNode(c, i) && c.nodes[i].term <= s.term
    ensures LogInv(View(DoInstall(Intended, c, i, s)))
  {
    hide E.ElectionInv, LogInv, VoteInv, InstallSnapshot, SnapshotOk, Settled, Matching, Backed, IndexOk;
    SnapshotParts(c, s);
    var n := c.nodes[i];
    var m := InstallSnapshot(Intended, n, s);
    SnapshotFits(c, i, s);
    InstalledLog(n, s);
    InvOfView(c);
    InstallChain(View(c), i, s.term, s.data, m.commit);
    var t := Installed(View(c), i, s.term, Full(m), m.commit);
    ViewWith(c, i, m, {InstallAnswer(i, s, m.term)}, DoInstall(Intended, c, i, s).h);
    assert t == State(View(c).nodes[i := Abs(m)], c.h);
    assert View(DoInstall(Intended, c, i, s)) == t;
  }

  lemma SnapshotParts(c: Cluster, s: SnapshotArgs)
    requires SnapshotOk(c, s)
    ensures s.lastIndex == |s.data| && Settled(c.h, s.data, s.term)
    ensures s.lastTerm == P.EndTerm(s.data) && Numbered(s.data, 0)
  {}

  lemma InstallMember(c: Cluster, i: nat, s: SnapshotArgs)
    requires ClusterInv(c) && i < |c.nodes| && SnapshotOk(c, s) && ShapedNode(c, i) && c.nodes[i].term <= s.term
    requires CommitIndicesOk(View(DoInstall(Intended, c, i, s)))
    ensures MemberOk(DoInstall(Intended, c, i, s), i)
  {
    hide E.ElectionInv, LogInv, InstallSnapshot;
    var c' := DoInstall(Intended, c, i, s);
    SnapshotFits(c, i, s);
    InstalledLog(c.nodes[i], s);
    InstallShape(c.nodes[i], s);
    assert View(c').nodes[i].commit <= |View(c').nodes[i].log|;
  }

  lemma InstallShape(n: Node, s: SnapshotArgs)
    requires NodeOk(n)
    ensures var m := InstallSnapshot(Intended, n, s);
      m.id == n.id && m.size == n.size && m.next == n.next && m.matched == n.matched
  {}

  lemma InstallAnswered(c: Cluster, i: nat, s: SnapshotArgs)
    requires ClusterInv(c) && i < |c.nodes| && AskInstall(s) in c.net && ShapedNode(c, i)
    requires Grows(c, i, InstallSnapshot(Intended, c.nodes[i], s), DoInstall(Intended, c, i, s).h)
    ensures var m := InstallSnapshot(Intended, c.nodes[i], s);
      MessageOk(DoInstall(Intended, c, i, s), InstallAnswer(i, s, m.term))
  {
    hide E.ElectionInv, LogInv, InstallSnapshot;
    var m := InstallSnapshot(Intended, c.nodes[i], s);
    assert MessageOk(c, AskInstall(s));
    InstallTerm(c.nodes[i], s);
    SnapshotStays(c, i, m, {InstallAnswer(i, s, m.term)}, DoInstall(Intended, c, i, s).h, s);
  }

  lemma InstallTerm(n: Node, s: SnapshotArgs)
    requires IndexOk(n)
    ensures InstallSnapshot(Intended, n, s).term == Max(n.term, s.term)
    ensures s.term < n.term ==> InstallSnapshot(Intended, n, s) == n
  {}

  /** The snapshot was committed, so it holds nothing that anyone has not sent. */
  lemma SnapshotFree(c: Cluster, s: SnapshotArgs)
    requires ClusterInv(c) && SnapshotOk(c, s)
    ensures Free(c, s.data)
  {
    hide E.ElectionInv, LogInv, Settled, Free, MembersOk, MessagesOk;
    SnapshotParts(c, s);
    InvOfView(c);
    SettledParts(View(c));
    SettledIsFree(c, s.data, s.term);
  }

  lemma InstallUnsent(c: Cluster, i: nat, s: SnapshotArgs)
    requires ClusterInv(c) && i < |c.nodes| && SnapshotOk(c, s) && ShapedNode(c, i) && c.nodes[i].term <= s.term
    ensures UnsentOk(DoInstall(Intended, c, i, s))
  {
    hide InstallSnapshot, Settled, Matching, Free, FreeBut, SentOk, LogInv, E.ElectionInv, MembersOk, MessagesOk;
    hide AcksFree, RequestsFree, Backed, IndexOk, Numbered;
    var n := c.nodes[i];
    var m := InstallSnapshot(Intended, n, s);
    var h := DoInstall(Intended, c, i, s).h;
    SnapshotParts(c, s);
    SnapshotFits(c, i, s);
    InstalledLog(n, s);
    SnapshotFree(c, s);
    hide ClusterInv, SnapshotOk;
    if Full(m) == Full(n) && m.stable >= n.stable {
      QuietUnsent(c, i, m, {InstallAnswer(i, s, m.term)}, h);
    } else {
      FreeForAll(c, i, s.data, s.data);
      SettledUnsent(c, i, m, {InstallAnswer(i, s, m.term)}, h);
    }
  }

  lemma SettledParts(s: State)
    requires LogInv(s)
    ensures CommitsOk(s) && AcksOk(s)
  {}

  lemma InstallStep(c: Cluster, i: nat, s: SnapshotArgs)
    requires ClusterInv(c) && i < |c.nodes| && AskInstall(s) in c.net && ShapedNode(c, i)
    ensures ClusterInv(DoInstall(Intended, c, i, s))
  {
    hide E.ElectionInv, LogInv, InstallSnapshot, Grows, SnapshotOk;
    var n := c.nodes[i];
    var m := InstallSnapshot(Intended, n, s);
    assert MessageOk(c, AskInstall(s));
    assert MemberOk(c, i);
    InstallTerm(n, s);
    if n.term <= s.term {
      InstallGrows(c, i, s);
      InstallLogs(c, i, s);
      CommitPart(View(DoInstall(Intended, c, i, s)));
      InstallMember(c, i, s);
      InstallAnswered(c, i, s);
      InstallUnsent(c, i, s);
      E.InstallElection(Intended, c, i, s);
      Close(c, i, m, {InstallAnswer(i, s, m.term)}, DoInstall(Intended, c, i, s).h);
    } else {
      QuietGrows(c, i);
      InstallAnswered(c, i, s);
      QuietInv(c, i, n, {InstallAnswer(i, s, n.term)});
    }
  }

  lemma QuietGrows(c: Cluster, i: nat)
    requires ClusterInv(c) && i < |c.nodes|
    ensures Grows(c, i, c.nodes[i], c.h)
  {
    SameView(c, i, c.nodes[i]);
  }

  // ------------------------------------------------------------------ the leader hears of it

  lemma InstallAnswerMember(c: Cluster, from: nat, s: SnapshotArgs, t: int)
    requires ClusterInv(c) && InstallAnswer(from, s, t) in c.net && s.leader < |c.nodes| && from < |c.nodes|
    requires ShapedNode(c, s.leader)
    requires c.nodes[s.leader].role == Leader && c.nodes[s.leader].term == s.term && t <= s.term
    ensures MemberOk(DoInstallAnswer(c, from, s, t), s.leader)
  {
    hide E.ElectionInv, LogInv;
    var n := c.nodes[s.leader];
    var m := HandleSnapshot(n, from, s, t);
    assert MessageOk(c, InstallAnswer(from, s, t));
    assert MemberOk(c, s.leader);
    LeaderTerm(c, s.leader);
    forall p: nat | p < |m.matched| && p != s.leader
      ensures Known(c.h, m, p)
    {
      assert p != from ==> Known(c.h, n, p);
    }
  }

  lemma InstallAnswerStep(c: Cluster, from: nat, s: SnapshotArgs, t: int)
    requires ClusterInv(c) && InstallAnswer(from, s, t) in c.net && s.leader < |c.nodes| && from < |c.nodes|
    requires ShapedNode(c, s.leader)
    ensures ClusterInv(DoInstallAnswer(c, from, s, t))
  {
    hide E.ElectionInv, LogInv;
    var n := c.nodes[s.leader];
    var m := HandleSnapshot(n, from, s, t);
    assert MemberOk(c, s.leader);
    if n.role != Leader || n.term != s.term {
      QuietInv(c, s.leader, n, {});
    } else if t > n.term {
      FollowInv(c, s.leader, t, {});
    } else {
      SameView(c, s.leader, m);
      InstallAnswerMember(c, from, s, t);
      E.InstallAnswerElection(c, from, s, t);
      QuietUnsent(c, s.leader, m, {}, c.h);
      Close(c, s.leader, m, {}, c.h);
    }
  }
}
