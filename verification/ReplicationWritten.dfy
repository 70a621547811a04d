/**
  The handlers as written, in the cluster: when their steps do no harm, and that otherwise they break the
  invariant. A harmless step is one of the repaired cluster's, or one followed by the news that a log
  write has reached the disk.
 */
module ReplicationWritten {
  import opened RaftTypes
  import opened RaftNode
  import opened Protocol
  import opened Cluster
  import opened UnsentEntries
  import opened ReplicationInv
  import opened ReplicationSteps
  import opened ReplicationFollower
  import opened ReplicationSnapshots
  import opened LogMerge
  import opened ReplicationFailures
  import D = RaftDepartures
  import E = ElectionSafety

  /** What a resumed request is checked for before its writes are made. */
  predicate Accepts(n: Node, a: AppendArgs, ws: seq<Write>, synced: bool)
    requires IndexOk(n)
  {
    && (synced || ws == []) && n.term == a.term
    && n.snapIndex <= a.prevIndex <= LastIndex(n) && TermAt(n, a.prevIndex) == a.prevTerm
    && Check(n, ws, LastIndex(n)).Fits?
  }

  /** The node holds this entry, or a snapshot in its place. */
  predicate HasEntry(n: Node, e: Entry) {
    e.index <= n.snapIndex || Has(n.log, e.index - n.snapIndex - 1, e)
  }

  /** The request is refused, or the log has all that it brings already, or ends at or before it. */
  predicate Covers(n: Node, a: AppendArgs, ws: seq<Write>, synced: bool)
    requires IndexOk(n)
  {
    Accepts(n, a, ws, synced) ==> (forall w <- ws :: HasEntry(n, w.entry)) || LastIndex(n) <= Reach(a)
  }

  /** The snapshot is not installed, or the log ends at or before it or agrees with its last entry. */
  predicate TailAgrees(n: Node, s: SnapshotArgs)
    requires IndexOk(n)
  {
    || s.term < n.term || s.lastIndex <= n.snapIndex
    || LastIndex(n) <= s.lastIndex || TermAt(n, s.lastIndex) == s.lastTerm
  }

  // ------------------------------------------------------------------ resuming

  lemma ResumeParts(mode: Mode, n: Node, a: AppendArgs, ws: seq<Write>, synced: bool)
    requires IndexOk(n)
    ensures var (m, r) := ResumeAppend(mode, n, a, ws, synced);
      && r == ResumeAppend(AsWritten, n, a, ws, synced).1 && (r.success <==> Accepts(n, a, ws, synced))
      && (r.success ==>
            && r.term == n.term == a.term && Check(n, ws, LastIndex(n)).Fits?
            && m.log == Apply(mode, n.log, n.snapIndex, ws)
            && m == n.(log := m.log,
                       stable := if mode == Intended then LastIndex(m) else Max(n.stable, LastIndex(m)),
                       commit := if a.leaderCommit > n.commit then Min(a.leaderCommit, LastIndex(m)) else n.commit))
      && (!r.success ==> m == n)
  {}

  /** What the gap preserves is what the overwrite needs to be compared with truncation. */
  lemma GapWriting(c: Cluster, i: nat, a: AppendArgs, ws: seq<Write>)
    requires ClusterInv(c) && i < |c.nodes| && Gap(i, a, ws) in c.net && a.term == c.nodes[i].term
    ensures var l := c.h.reigns[a.term].log;
      && RequestOk(c.h, a) && |ws| <= |a.entries|
      && D.Writing(c.nodes[i], l, Reach(a) - |ws|, ws) && Matching(Full(c.nodes[i]), l)
      && l[..Reach(a) - |ws|] <= Full(c.nodes[i])
  {
    hide LogInv, E.ElectionInv, UnsentOk;
    assert MessageOk(c, Gap(i, a, ws));
    WithLeader(c, i, a.term);
    forall k | 0 <= k < |ws| ensures ws[k].entry == c.h.reigns[a.term].log[Reach(a) - |ws| + k] {
      GapWrites(c, i, a, ws, k);
    }
  }

  /** Having all the entries to be written means having the leader's log up to the last one. */
  lemma HasAllWritten(n: Node, l: seq<Entry>, q: int, ws: seq<Write>)
    requires D.Writing(n, l, q, ws) && l[..q] <= Full(n)
    ensures (forall w <- ws :: HasEntry(n, w.entry)) <==> l[..q + |ws|] <= Full(n)
  {
    var f := Full(n);
    forall k | 0 <= k < |ws| ensures HasEntry(n, ws[k].entry) <==> Has(f, q + k, l[q + k]) {
      assert l[q + k].index == q + k + 1;
      assert q + k < n.snapIndex ==> f[q + k] == n.snapData[q + k] == l[q + k];
    }
    if forall w <- ws :: HasEntry(n, w.entry) {
      forall k | 0 <= k < q + |ws| ensures Has(f, k, l[k]) {
        if k < q {
          assert l[..q][k] == f[k];
        } else {
          assert ws[k - q] in ws;
        }
      }
      assert q + |ws| > 0 ==> Has(f, q + |ws| - 1, l[q + |ws| - 1]);
      assert l[..q + |ws|] == f[..q + |ws|];
    }
  }

  /**
    The written second half of AppendEntries, behind any gap: it keeps log matching with the log it finds
    exactly when that log has all it brings already or ends at or before it.
   */
  lemma ResumeExact(c: Cluster, i: nat, a: AppendArgs, ws: seq<Write>, synced: bool)
    requires ClusterInv(c) && i < |c.nodes| && Gap(i, a, ws) in c.net && IndexOk(c.nodes[i])
    requires ResumeAppend(AsWritten, c.nodes[i], a, ws, synced).1.success
    ensures var m := ResumeAppend(AsWritten, c.nodes[i], a, ws, synced).0;
      && (Matching(Full(m), Full(c.nodes[i])) <==> Covers(c.nodes[i], a, ws, synced))
      && (m.log == ResumeAppend(Intended, c.nodes[i], a, ws, synced).0.log <==> Covers(c.nodes[i], a, ws, synced))
  {
    hide ClusterInv, ResumeAppend, D.Writing, Matching;
    ResumeParts(AsWritten, c.nodes[i], a, ws, synced);
    ResumeParts(Intended, c.nodes[i], a, ws, synced);
    GapWriting(c, i, a, ws);
    HasAllWritten(c.nodes[i], c.h.reigns[a.term].log, Reach(a) - |ws|, ws);
    D.OverwriteExact(c.nodes[i], c.h.reigns[a.term].log, Reach(a) - |ws|, ws);
  }

  /** On such a step the written form does what the repaired one does, and leaves the stable index as high as it was. */
  lemma ResumeSame(c: Cluster, i: nat, a: AppendArgs, ws: seq<Write>, synced: bool)
    requires ClusterInv(c) && i < |c.nodes| && Gap(i, a, ws) in c.net && ShapedNode(c, i)
    requires Covers(c.nodes[i], a, ws, synced)
    ensures var n := c.nodes[i];
      var (m, r) := ResumeAppend(Intended, n, a, ws, synced);
      ResumeAppend(AsWritten, n, a, ws, synced) == (if r.success then LogStable(m, n.stable) else m, r)
  {
    assert IndexOk(c.nodes[i]);
    hide ClusterInv, Covers, ResumeAppend, Apply, Check, NodeOk, IndexOk;
    var n := c.nodes[i];
    ResumeParts(AsWritten, n, a, ws, synced);
    ResumeParts(Intended, n, a, ws, synced);
    if ResumeAppend(AsWritten, n, a, ws, synced).1.success {
      ResumeExact(c, i, a, ws, synced);
    }
  }

  lemma ResumeWritten(c: Cluster, i: nat, a: AppendArgs, ws: seq<Write>, synced: bool)
    requires ClusterInv(c) && i < |c.nodes| && Gap(i, a, ws) in c.net && ShapedNode(c, i)
    requires Covers(c.nodes[i], a, ws, synced)
    ensures ClusterInv(DoResume(AsWritten, c, i, a, ws, synced))
    ensures DoResume(AsWritten, c, i, a, ws, synced).h == DoResume(Intended, c, i, a, ws, synced).h
  {
    hide ClusterInv, Covers, ResumeAppend;
    ResumeSame(c, i, a, ws, synced);
    ResumeStep(c, i, a, ws, synced);
    var d := DoResume(Intended, c, i, a, ws, synced);
    var (m, r) := ResumeAppend(Intended, c.nodes[i], a, ws, synced);
    if r.success {
      assert ShapedNode(d, i) by { Member(d, i); }
      LocalStep(d, i, c.nodes[i].stable);
      Twice(c, d, i, m, LogStable(m, c.nodes[i].stable));
      assert DoSynced(d, i, c.nodes[i].stable) == DoResume(AsWritten, c, i, a, ws, synced);
    }
  }

  /** A log cannot keep its end behind another beginning. */
  lemma Grafted(r: Reigns, f: seq<Entry>, p: seq<Entry>)
    requires |p| < |f| && Rooted(r, f) && Rooted(r, p + f[|p|..])
    ensures p <= f
  {
    var g := p + f[|p|..];
    assert RootedAt(r, f, |p|) && RootedAt(r, g, |p|);
    assert f[..|p| + 1] == g[..|p| + 1];
    assert p == g[..|p| + 1][..|p|] == f[..|p|];
  }

  /** The log that a harmful overwrite leaves: another beginning, and the old end behind it. */
  lemma ResumeGrafts(c: Cluster, i: nat, a: AppendArgs, ws: seq<Write>, synced: bool) returns (p: seq<Entry>)
    requires ClusterInv(c) && i < |c.nodes| && Gap(i, a, ws) in c.net && ShapedNode(c, i)
    requires !Covers(c.nodes[i], a, ws, synced)
    ensures |p| < |Full(c.nodes[i])| && !(p <= Full(c.nodes[i]))
    ensures Full(ResumeAppend(AsWritten, c.nodes[i], a, ws, synced).0) == p + Full(c.nodes[i])[|p|..]
  {
    hide ClusterInv, ResumeAppend, Matching, HasEntry, Check, Apply;
    var n := c.nodes[i];
    ResumeParts(AsWritten, n, a, ws, synced);
    GapWriting(c, i, a, ws);
    hide RequestOk;
    p := c.h.reigns[a.term].log[..Reach(a)];
    D.OverwriteResults(n, c.h.reigns[a.term].log, Reach(a) - |ws|, ws);
    HasAllWritten(n, c.h.reigns[a.term].log, Reach(a) - |ws|, ws);
  }

  /** It is not borne out by the records. */
  lemma ResumeHarms(c: Cluster, i: nat, a: AppendArgs, ws: seq<Write>, synced: bool)
    requires ClusterInv(c) && i < |c.nodes| && Gap(i, a, ws) in c.net && ShapedNode(c, i)
    requires ClusterInv(DoResume(AsWritten, c, i, a, ws, synced))
    ensures Covers(c.nodes[i], a, ws, synced)
  {
    hide ClusterInv, ResumeAppend, Covers, Rooted;
    var d := DoResume(AsWritten, c, i, a, ws, synced);
    assert d.h.reigns == c.h.reigns && d.nodes[i] == ResumeAppend(AsWritten, c.nodes[i], a, ws, synced).0;
    hide DoResume;
    if !Covers(c.nodes[i], a, ws, synced) {
      var p := ResumeGrafts(c, i, a, ws, synced);
      RootedNode(c, i);
      RootedNode(d, i);
      Grafted(c.h.reigns, Full(c.nodes[i]), p);
    }
  }

  /** As written, the second half of AppendEntries keeps the invariant exactly on these steps. */
  lemma ResumeKeepsExact(c: Cluster, i: nat, a: AppendArgs, ws: seq<Write>, synced: bool)
    requires ClusterInv(c) && i < |c.nodes| && Gap(i, a, ws) in c.net && ShapedNode(c, i)
    ensures ClusterInv(DoResume(AsWritten, c, i, a, ws, synced)) <==> Covers(c.nodes[i], a, ws, synced)
  {
    hide ClusterInv, Covers, DoResume;
    if Covers(c.nodes[i], a, ws, synced) {
      ResumeWritten(c, i, a, ws, synced);
    } else if ClusterInv(DoResume(AsWritten, c, i, a, ws, synced)) {
      ResumeHarms(c, i, a, ws, synced);
    }
  }

  lemma Twice(c: Cluster, d: Cluster, i: nat, m: Node, m': Node)
    requires i < |c.nodes| && d.nodes == c.nodes[i := m]
    ensures d.nodes[i := m'] == c.nodes[i := m']
  {}

  // ------------------------------------------------------------------ installing

  lemma InstallSame(n: Node, s: SnapshotArgs)
    requires NodeOk(n) && TailAgrees(n, s)
    ensures InstallSnapshot(AsWritten, n, s) ==
      (if s.term < n.term || s.lastIndex <= n.snapIndex then InstallSnapshot(Intended, n, s)
       else LogStable(InstallSnapshot(Intended, n, s), Max(n.stable, s.lastIndex)))
  {}

  lemma InstallWritten(c: Cluster, i: nat, s: SnapshotArgs)
    requires ClusterInv(c) && i < |c.nodes| && AskInstall(s) in c.net && ShapedNode(c, i) && TailAgrees(c.nodes[i], s)
    ensures ClusterInv(DoInstall(AsWritten, c, i, s))
    ensures DoInstall(AsWritten, c, i, s).h == DoInstall(Intended, c, i, s).h
  {
    hide ClusterInv, TailAgrees, InstallSnapshot;
    var n := c.nodes[i];
    InstallSame(n, s);
    InstallStep(c, i, s);
    var d := DoInstall(Intended, c, i, s);
    var m := InstallSnapshot(Intended, n, s);
    if s.term >= n.term && s.lastIndex > n.snapIndex {
      var top := Max(n.stable, s.lastIndex);
      assert ShapedNode(d, i) by { Member(d, i); }
      LocalStep(d, i, top);
      Twice(c, d, i, m, LogStable(m, top));
      assert DoSynced(d, i, top) == DoInstall(AsWritten, c, i, s);
    }
  }

  /** A stale tail behind a snapshot is not borne out by the records. */
  lemma InstallHarms(c: Cluster, i: nat, s: SnapshotArgs)
    requires ClusterInv(c) && i < |c.nodes| && AskInstall(s) in c.net && ShapedNode(c, i)
    requires ClusterInv(DoInstall(AsWritten, c, i, s))
    ensures TailAgrees(c.nodes[i], s)
  {
    var n, d := c.nodes[i], DoInstall(AsWritten, c, i, s);
    assert MessageOk(c, AskInstall(s));
    if s.term >= n.term && s.lastIndex > n.snapIndex && LastIndex(n) > s.lastIndex {
      Member(c, i);
      FullLog(n);
      KeptTail(n, s);
      assert Full(d.nodes[i]) == s.data + Full(n)[|s.data|..] && d.h.reigns == c.h.reigns;
      hide ClusterInv, DoInstall, InstallSnapshot;
      RootedNode(c, i);
      RootedNode(d, i);
      Grafted(c.h.reigns, Full(n), s.data);
      PrefixLastTerm(Full(n), s.data);
    }
  }

  /** What the installation as written leaves of a longer log. */
  lemma KeptTail(n: Node, s: SnapshotArgs)
    requires NodeOk(n) && Backed(n) && s.lastIndex == |s.data|
    requires s.term >= n.term && s.lastIndex > n.snapIndex && LastIndex(n) > s.lastIndex
    ensures |Full(n)| == LastIndex(n)
    ensures Full(InstallSnapshot(AsWritten, n, s)) == s.data + Full(n)[|s.data|..]
  {
    FullLog(n);
    assert Full(n)[|s.data|..] == n.log[s.lastIndex - n.snapIndex..];
  }

  /** As written, an installed snapshot keeps the invariant exactly on these steps. */
  lemma InstallKeepsExact(c: Cluster, i: nat, s: SnapshotArgs)
    requires ClusterInv(c) && i < |c.nodes| && AskInstall(s) in c.net && ShapedNode(c, i)
    ensures ClusterInv(DoInstall(AsWritten, c, i, s)) <==> TailAgrees(c.nodes[i], s)
  {
    hide ClusterInv, TailAgrees, DoInstall;
    if TailAgrees(c.nodes[i], s) {
      InstallWritten(c, i, s);
    } else if ClusterInv(DoInstall(AsWritten, c, i, s)) {
      InstallHarms(c, i, s);
    }
  }
}
