/**
  The main results, for every run of the cluster from its first start. Log matching, leader
  completeness and state machine safety hold in every careful run. A run is careful exactly if the
  invariant holds all along it. With the repaired handlers that is so unless a failed log write takes
  back an entry that something else has; with the handlers as written two more conditions are put on
  what it does to logs. The index invariant holds as written in every run.
 */
module RaftSafety {
  import opened RaftTypes
  import opened RaftNode
  import opened Protocol
  import opened Cluster
  import opened ReplicationInv
  import opened ReplicationSteps
  import opened ReplicationFollower
  import opened ReplicationCommit
  import opened ReplicationSnapshots
  import opened ReplicationFailures
  import opened ReplicationWritten
  import opened UnsentEntries
  import opened LogMerge
  import P = ProtocolSteps
  import E = ElectionSafety
  import R = RaftIndices

  // ------------------------------------------------------------------ every step

  lemma InvIsShaped(c: Cluster)
    requires ClusterInv(c)
    ensures Shaped(c)
  {
    forall i | 0 <= i < |c.nodes| ensures ShapedNode(c, i) {
      assert MemberOk(c, i);
    }
  }

  /**
    A step that is not one of those that break safety. A failed write must not take back an entry that
    another log, a request or an acknowledgement has. As written, a resumed request must be refused, or find
    all it brings in the log, or reach the end of the log as it is then; and an installed snapshot must
    leave no tail, or one behind an entry of the log that agrees with its last.
   */
  ghost predicate Harmless(mode: Mode, c: Cluster, a: Action) {
    match a
    case Failed(i, index) => i < |c.nodes| && Takes(c.nodes[i], index) ==> Recallable(c, i, index - 1)
    case OnResume(i, e, ws, synced) =>
      mode == AsWritten && i < |c.nodes| && Gap(i, e, ws) in c.net && IndexOk(c.nodes[i]) ==>
        Covers(c.nodes[i], e, ws, synced)
    case OnInstall(i, s) =>
      mode == AsWritten && i < |c.nodes| && AskInstall(s) in c.net && IndexOk(c.nodes[i]) ==>
        TailAgrees(c.nodes[i], s)
    case _ => true
  }

  lemma StepInv(mode: Mode, c: Cluster, a: Action)
    requires ClusterInv(c) && Harmless(mode, c, a)
    ensures ClusterInv(Do(mode, c, a))
  {
    hide ClusterInv, DoTimeout, DoVote, DoVoteAnswer, DoBeat, DoAppend, DoResume, DoAppendAnswer, DoCommand;
    hide DoSynced, DoFailed, DoCompact, DoSendSnapshot, DoInstall, DoInstallAnswer, DoApplyRound, ShapedNode;
    hide Takes, Recallable, Covers, TailAgrees;
    InvIsShaped(c);
    match a
    case Timeout(i) => if i < |c.nodes| { TimeoutStep(c, i); }
    case OnVote(i, v) =>
      if i < |c.nodes| && AskVote(v) in c.net && i != v.candidate { VoteStep(c, i, v); }
    case OnVoteAnswer(from, v, r) =>
      if v.candidate < |c.nodes| && VoteAnswer(from, v, r) in c.net { AnswerStep(c, from, v, r); }
    case Beat(i, p) => if i < |c.nodes| && p < |c.nodes| { assert ShapedNode(c, i); BeatStep(mode, c, i, p); }
    case OnAppend(i, e) =>
      if i < |c.nodes| && AskAppend(i, e) in c.net { assert ShapedNode(c, i); AppendStep(c, i, e); }
    case OnAppendAnswer(from, e, r) =>
      if e.leader < |c.nodes| && from < |c.nodes| && AppendAnswer(from, e, r) in c.net {
        assert ShapedNode(c, e.leader);
        AppendAnswerStep(c, from, e, r);
      }
    case Command(i, command) => if i < |c.nodes| { CommandStep(c, i, command); }
    case Synced(i, index) => if i < |c.nodes| { assert ShapedNode(c, i); LocalStep(c, i, index); }
    case Compact(i, index) => if i < |c.nodes| { assert ShapedNode(c, i); LocalStep(c, i, index); }
    case SendSnapshot(i) => if i < |c.nodes| { assert ShapedNode(c, i); SendStep(c, i); }
    case OnInstallAnswer(from, s, t) =>
      if s.leader < |c.nodes| && from < |c.nodes| && InstallAnswer(from, s, t) in c.net {
        assert ShapedNode(c, s.leader);
        InstallAnswerStep(c, from, s, t);
      }
    case ApplyRound(i) => if i < |c.nodes| { assert ShapedNode(c, i); LocalStep(c, i, 0); }
    case _ => RiskyStep(mode, c, a);
  }

  /** The three kinds of step that are not always harmless. */
  lemma RiskyStep(mode: Mode, c: Cluster, a: Action)
    requires ClusterInv(c) && Harmless(mode, c, a) && (a.Failed? || a.OnResume? || a.OnInstall?)
    ensures ClusterInv(Do(mode, c, a)) && Remembers(c.h, Do(mode, c, a).h)
  {
    hide ClusterInv, DoResume, DoFailed, DoInstall, Takes, Recallable, Covers, TailAgrees, Remembers;
    InvIsShaped(c);
    SameRemembers(c.h);
    match a
    case Failed(i, index) =>
      if i < |c.nodes| { assert ShapedNode(c, i); FailedStep(c, i, index); }
    case OnResume(i, e, ws, synced) =>
      if i < |c.nodes| && Gap(i, e, ws) in c.net {
        assert ShapedNode(c, i);
        ResumeStep(c, i, e, ws, synced);
        ResumeHistory(c, i, e, ws, synced);
        if mode == AsWritten { ResumeWritten(c, i, e, ws, synced); }
      }
    case OnInstall(i, s) =>
      if i < |c.nodes| && AskInstall(s) in c.net {
        assert ShapedNode(c, i);
        InstallStep(c, i, s);
        InstallHistory(c, i, s);
        if mode == AsWritten { InstallWritten(c, i, s); }
      }
  }

  /** A step keeps the invariant if and only if it is harmless. */
  lemma StepExact(mode: Mode, c: Cluster, a: Action)
    requires ClusterInv(c)
    ensures ClusterInv(Do(mode, c, a)) <==> Harmless(mode, c, a)
  {
    hide ClusterInv, DoResume, DoFailed, DoInstall, Takes, Recallable, Covers, TailAgrees;
    InvIsShaped(c);
    if Harmless(mode, c, a) {
      StepInv(mode, c, a);
    } else {
      match a
      case Failed(i, index) => assert ShapedNode(c, i); FailedExact(c, i, index);
      case OnResume(i, e, ws, synced) => assert ShapedNode(c, i); ResumeKeepsExact(c, i, e, ws, synced);
      case OnInstall(i, s) => assert ShapedNode(c, i); InstallKeepsExact(c, i, s);
      case _ =>
    }
  }

  lemma SameRemembers(h: History)
    ensures Remembers(h, h)
  {}

  lemma GrowsRemembers(h: History, h': History)
    requires HistoryGrows(h, h')
    ensures Remembers(h, h')
  {
    forall p, hi | Settled(h, p, hi) ensures Settled(h', p, hi) {
      SettledGrows(h, h', p, hi);
    }
  }

  lemma ResumeHistory(c: Cluster, i: nat, a: AppendArgs, ws: seq<Write>, synced: bool)
    requires i < |c.nodes| && ShapedNode(c, i)
    ensures Remembers(c.h, DoResume(Intended, c, i, a, ws, synced).h)
  {
    hide ResumeAppend;
    GrowsRemembers(c.h, DoResume(Intended, c, i, a, ws, synced).h);
  }

  lemma InstallHistory(c: Cluster, i: nat, s: SnapshotArgs)
    requires i < |c.nodes| && ShapedNode(c, i)
    ensures Remembers(c.h, DoInstall(Intended, c, i, s).h)
  {
    hide InstallSnapshot;
    GrowsRemembers(c.h, DoInstall(Intended, c, i, s).h);
  }

  /** What has been committed stays on record. */
  lemma StepRemembers(mode: Mode, c: Cluster, a: Action)
    requires ClusterInv(c) && Harmless(mode, c, a)
    ensures Remembers(c.h, Do(mode, c, a).h)
  {
    hide ClusterInv, Heartbeat, InstallSnapshot, ResumeAppend, ReceiveAppend, HandleAppend, Remembers, Harmless;
    if a.Failed? || a.OnResume? || a.OnInstall? {
      RiskyStep(mode, c, a);
    } else {
      if a.OnVoteAnswer? && a.vote.candidate < |c.nodes| && VoteAnswer(a.from, a.vote, a.voteReply) in c.net {
        AnswerGrows(c, a.from, a.vote, a.voteReply);
      } else if a.Command? && a.i < |c.nodes| && c.nodes[a.i].role == Leader {
        CommandLogs(c, a.i, a.command);
      }
      GrowsRemembers(c.h, Do(mode, c, a).h);
    }
  }

  // ------------------------------------------------------------------ every careful run

  ghost predicate Careful(mode: Mode, n: nat, acts: seq<Action>)
    decreases |acts|
  {
    acts == [] ||
      (Careful(mode, n, acts[..|acts| - 1])
       && Harmless(mode, Run(mode, Init(n), acts[..|acts| - 1]), acts[|acts| - 1]))
  }

  lemma InitInv(n: nat)
    ensures ClusterInv(Init(n))
  {
    E.InitElection(n);
    forall i | 0 <= i < n ensures MemberOk(Init(n), i) {}
  }

  lemma {:induction false} RunInv(mode: Mode, n: nat, acts: seq<Action>)
    requires Careful(mode, n, acts)
    ensures ClusterInv(Run(mode, Init(n), acts))
    decreases |acts|
  {
    hide ClusterInv, Harmless;
    if acts == [] {
      InitInv(n);
    } else {
      RunInv(mode, n, acts[..|acts| - 1]);
      StepInv(mode, Run(mode, Init(n), acts[..|acts| - 1]), acts[|acts| - 1]);
    }
  }

  /** The invariant holds at every point of a run. */
  ghost predicate InvThroughout(mode: Mode, n: nat, acts: seq<Action>) {
    forall k :: 0 <= k <= |acts| ==> ClusterInv(Run(mode, Init(n), acts[..k]))
  }

  lemma ThroughoutStep(mode: Mode, n: nat, acts: seq<Action>)
    requires acts != []
    ensures InvThroughout(mode, n, acts) <==>
      InvThroughout(mode, n, acts[..|acts| - 1]) && ClusterInv(Run(mode, Init(n), acts))
  {
    hide ClusterInv, Run;
    var before := acts[..|acts| - 1];
    assert acts[..|acts|] == acts;
    assert forall k :: 0 <= k <= |before| ==> before[..k] == acts[..k];
  }

  /** The careful runs are those along which the invariant holds. */
  lemma {:induction false} CarefulExact(mode: Mode, n: nat, acts: seq<Action>)
    ensures Careful(mode, n, acts) <==> InvThroughout(mode, n, acts)
    decreases |acts|
  {
    hide ClusterInv, Harmless, InvThroughout, Do;
    if acts == [] {
      InitInv(n);
      ThroughoutNothing(mode, n);
    } else {
      var before := acts[..|acts| - 1];
      CarefulExact(mode, n, before);
      ThroughoutStep(mode, n, acts);
      if Careful(mode, n, before) {
        RunInv(mode, n, before);
        StepExact(mode, Run(mode, Init(n), before), acts[|acts| - 1]);
      }
    }
  }

  lemma ThroughoutNothing(mode: Mode, n: nat)
    requires ClusterInv(Init(n))
    ensures InvThroughout(mode, n, [])
  {
    hide ClusterInv;
    forall k | 0 <= k <= 0 ensures ClusterInv(Run(mode, Init(n), [][..k])) {
      assert Run(mode, Init(n), [][..k]) == Init(n);
    }
  }

  lemma RemembersTrans(h: History, g: History, k: History)
    requires Remembers(h, g) && Remembers(g, k)
    ensures Remembers(h, k)
  {}

  /** The invariant at both ends of a piece of a run, and what was committed at its start still is at its end. */
  lemma {:induction false} RunRemembers(mode: Mode, n: nat, acts: seq<Action>, k: nat)
    requires k <= |acts| && Careful(mode, n, acts)
    ensures ClusterInv(Run(mode, Init(n), acts[..k])) && ClusterInv(Run(mode, Init(n), acts))
    ensures Remembers(Run(mode, Init(n), acts[..k]).h, Run(mode, Init(n), acts).h)
    decreases |acts|
  {
    hide ClusterInv, Harmless, Remembers, Do;
    RunInv(mode, n, acts);
    if k == |acts| {
      assert acts[..k] == acts;
      SameRemembers(Run(mode, Init(n), acts).h);
    } else {
      var before := acts[..|acts| - 1];
      RunRemembers(mode, n, before, k);
      assert before[..k] == acts[..k];
      StepRemembers(mode, Run(mode, Init(n), before), acts[|acts| - 1]);
      RemembersTrans(Run(mode, Init(n), acts[..k]).h, Run(mode, Init(n), before).h, Run(mode, Init(n), acts).h);
    }
  }

  // ------------------------------------------------------------------ the theorems

  /** Log matching: logs that agree on the term at a position agree up to that position. */
  lemma LogsMatch(mode: Mode, n: nat, acts: seq<Action>, i: nat, j: nat, k: nat)
    requires Careful(mode, n, acts)
    requires i < |Run(mode, Init(n), acts).nodes| && j < |Run(mode, Init(n), acts).nodes|
    ensures var c := Run(mode, Init(n), acts);
      var f, g := Full(c.nodes[i]), Full(c.nodes[j]);
      k < |f| && k < |g| && f[k].term == g[k].term ==> f[..k + 1] == g[..k + 1]
  {
    RunInv(mode, n, acts);
    var c := Run(mode, Init(n), acts);
    InvOfView(c);
    assert LogOk(c.h.reigns, View(c).nodes[i]) && LogOk(c.h.reigns, View(c).nodes[j]);
    RootedMatching(c.h.reigns, Full(c.nodes[i]), Full(c.nodes[j]));
  }

  /** Entry e is committed on node i, at index k. */
  predicate CommittedOn(c: Cluster, i: nat, k: int, e: Entry) {
    i < |c.nodes| && 0 < k <= c.nodes[i].commit && k <= |Full(c.nodes[i])| && Full(c.nodes[i])[k - 1] == e
  }

  /** A committed prefix, with the term of the node that knows it. */
  lemma CommittedPrefix(c: Cluster, i: nat, k: int, e: Entry)
    requires ClusterInv(c) && CommittedOn(c, i, k, e)
    ensures Settled(c.h, Full(c.nodes[i])[..k], c.nodes[i].term)
  {
    CommittedSettled(c, i, k);
  }

  lemma SettledSame(s: State, p: seq<Entry>, q: seq<Entry>, hi: int, hj: int, k: int)
    requires Inv(s) && Settled(s.h, p, hi) && Settled(s.h, q, hj) && 0 <= k < |p| && k < |q|
    ensures p[k] == q[k]
  {
    SettledCompare(s, p, q, hi, hj);
  }

  /**
    State machine safety: an entry committed on one node at some point of a run and an entry committed
    at the same index on any node at the end of it are the same entry.
   */
  lemma CommittedAgree(mode: Mode, n: nat, acts: seq<Action>, m: nat, i: nat, j: nat, k: int, e: Entry, f: Entry)
    requires m <= |acts| && Careful(mode, n, acts)
    requires CommittedOn(Run(mode, Init(n), acts[..m]), i, k, e)
    requires CommittedOn(Run(mode, Init(n), acts), j, k, f)
    ensures e == f
  {
    RunRemembers(mode, n, acts, m);
    AgreeAcross(Run(mode, Init(n), acts[..m]), Run(mode, Init(n), acts), i, j, k, e, f);
  }

  lemma AgreeAcross(c: Cluster, d: Cluster, i: nat, j: nat, k: int, e: Entry, f: Entry)
    requires ClusterInv(c) && ClusterInv(d) && Remembers(c.h, d.h)
    requires CommittedOn(c, i, k, e) && CommittedOn(d, j, k, f)
    ensures e == f
  {
    hide ClusterInv, Settled, Inv, Remembers;
    var p, q := Full(c.nodes[i])[..k], Full(d.nodes[j])[..k];
    CommittedPrefix(c, i, k, e);
    CommittedPrefix(d, j, k, f);
    RememberedSettled(c.h, d.h, p, c.nodes[i].term);
    InvOfView(d);
    SettledSame(View(d), p, q, c.nodes[i].term, d.nodes[j].term, k - 1);
  }

  /** What applierTicker hands on comes from the committed part of the log. */
  lemma {:induction false} CopiedIsCommitted(n: Node, start: int, end: int, k: int, command: string)
    requires n.snapIndex < start && end <= n.snapIndex + |n.log| && |n.snapData| == n.snapIndex
    requires CommandMsg(k, command) in CopyLogs(n, start, end)
    ensures start <= k <= end && Full(n)[k - 1].command == command
    decreases end - start
  {
    if CommandMsg(k, command) != CopyLogs(n, start, end)[0] {
      CopiedIsCommitted(n, start + 1, end, k, command);
    }
  }

  predicate HandsOn(c: Cluster, i: nat, k: int, command: string)
    requires i < |c.nodes| && NodeOk(c.nodes[i])
  {
    CommandMsg(k, command) in ApplyCommitted(c.nodes[i]).1
  }

  /** No two nodes ever hand different commands to their state machines for the same index. */
  lemma AppliedAgree(mode: Mode, n: nat, acts: seq<Action>, m: nat, i: nat, j: nat, k: int, x: string, y: string)
    requires m <= |acts| && Careful(mode, n, acts)
    requires i < |Run(mode, Init(n), acts[..m]).nodes| && NodeOk(Run(mode, Init(n), acts[..m]).nodes[i])
    requires j < |Run(mode, Init(n), acts).nodes| && NodeOk(Run(mode, Init(n), acts).nodes[j])
    requires HandsOn(Run(mode, Init(n), acts[..m]), i, k, x)
    requires HandsOn(Run(mode, Init(n), acts), j, k, y)
    ensures x == y
  {
    var c, d := Run(mode, Init(n), acts[..m]), Run(mode, Init(n), acts);
    RunRemembers(mode, n, acts, m);
    HandedIsCommitted(c, i, k, x);
    HandedIsCommitted(d, j, k, y);
    CommittedAgree(mode, n, acts, m, i, j, k, Full(c.nodes[i])[k - 1], Full(d.nodes[j])[k - 1]);
  }

  lemma HandedIsCommitted(c: Cluster, i: nat, k: int, x: string)
    requires ClusterInv(c) && i < |c.nodes| && NodeOk(c.nodes[i]) && HandsOn(c, i, k, x)
    ensures 0 < k <= |Full(c.nodes[i])| && CommittedOn(c, i, k, Full(c.nodes[i])[k - 1])
    ensures Full(c.nodes[i])[k - 1].command == x
  {
    hide ClusterInv, LeaderOk;
    var n := c.nodes[i];
    Member(c, i);
    FullLog(n);
    hide MemberOk, Backed, IndexOk;
    CopiedIsCommitted(n, n.applied + 1, n.commit, k, x);
  }

  /** Leader completeness: whoever leads a later term holds every entry committed before. */
  lemma LeadersComplete(mode: Mode, n: nat, acts: seq<Action>, m: nat, i: nat, j: nat, k: int, e: Entry)
    requires m <= |acts| && Careful(mode, n, acts)
    requires CommittedOn(Run(mode, Init(n), acts[..m]), i, k, e)
    requires j < |Run(mode, Init(n), acts).nodes| && Run(mode, Init(n), acts).nodes[j].role == Leader
    requires Run(mode, Init(n), acts[..m]).nodes[i].term <= Run(mode, Init(n), acts).nodes[j].term
    ensures var f := Full(Run(mode, Init(n), acts).nodes[j]); k <= |f| && f[k - 1] == e
  {
    RunRemembers(mode, n, acts, m);
    CompleteAcross(Run(mode, Init(n), acts[..m]), Run(mode, Init(n), acts), i, j, k, e);
  }

  lemma CompleteAcross(c: Cluster, d: Cluster, i: nat, j: nat, k: int, e: Entry)
    requires ClusterInv(c) && ClusterInv(d) && Remembers(c.h, d.h) && CommittedOn(c, i, k, e)
    requires j < |d.nodes| && d.nodes[j].role == Leader && c.nodes[i].term <= d.nodes[j].term
    ensures var f := Full(d.nodes[j]); k <= |f| && f[k - 1] == e
  {
    hide ClusterInv, Settled, Inv, Remembers;
    var p := Full(c.nodes[i])[..k];
    CommittedPrefix(c, i, k, e);
    RememberedSettled(c.h, d.h, p, c.nodes[i].term);
    InvOfView(d);
    LeaderTerm(d, j);
    SettledInReign(View(d), p, c.nodes[i].term, d.nodes[j].term);
    assert p[k - 1] == e;
  }

  /** The process exit of AppendEntries, for equal terms with different commands, is never reached. */
  lemma NeverExits(mode: Mode, n: nat, acts: seq<Action>, i: nat, a: AppendArgs)
    requires Careful(mode, n, acts)
    requires var c := Run(mode, Init(n), acts);
      i < |c.nodes| && AskAppend(i, a) in c.net && IndexOk(c.nodes[i])
    ensures !ReceiveAppend(Run(mode, Init(n), acts).nodes[i], a).Exited?
  {
    RunInv(mode, n, acts);
    NoExit(Run(mode, Init(n), acts), i, a);
  }

  lemma NoExit(c: Cluster, i: nat, a: AppendArgs)
    requires ClusterInv(c) && i < |c.nodes| && AskAppend(i, a) in c.net && IndexOk(c.nodes[i])
    ensures !ReceiveAppend(c.nodes[i], a).Exited?
  {
    hide LogInv, E.ElectionInv, Clashes;
    var m := c.nodes[i];
    assert MessageOk(c, AskAppend(i, a));
    if m.term <= a.term {
      WithLeader(c, i, a.term);
      forall e <- a.entries ensures !Clashes(BecomeFollower(m, a.term), e) {
        NoClash(m, c.h.reigns[a.term].log, a, e);
      }
    }
  }

  lemma NoClash(m: Node, l: seq<Entry>, a: AppendArgs, e: Entry)
    requires NodeOk(m) && Backed(m) && Matching(Full(m), l) && Numbered(l, 0) && e in a.entries
    requires 0 <= a.prevIndex && a.prevIndex + |a.entries| <= |l|
    requires a.entries == l[a.prevIndex..a.prevIndex + |a.entries|]
    ensures !Clashes(BecomeFollower(m, a.term), e)
  {
    FullLog(m);
    var j :| 0 <= j < |a.entries| && a.entries[j] == e;
    var k := a.prevIndex + j;
    assert l[k] == e && e.index == k + 1;
    hide Matching, Numbered;
    if m.snapIndex < e.index <= LastIndex(m) {
      assert k < |Full(m)| && Full(m)[k] == m.log[k - m.snapIndex];
      SharedEntry(Full(m), l, k);
    }
  }

  lemma SharedEntry(f: seq<Entry>, l: seq<Entry>, k: nat)
    requires Matching(f, l) && k < |f| && k < |l|
    ensures f[k].term == l[k].term ==> f[k] == l[k]
  {
    if f[k].term == l[k].term {
      SharedAt(f, l, k + 1, k);
    }
  }

  /** The leader's assertion holds: a peer's next index never passes the end of the leader's own log. */
  lemma AnswersFit(mode: Mode, n: nat, acts: seq<Action>, from: nat, a: AppendArgs, r: AppendReply)
    requires Careful(mode, n, acts)
    requires var c := Run(mode, Init(n), acts);
      && AppendAnswer(from, a, r) in c.net && a.leader < |c.nodes| && from < |c.nodes| && from != a.leader
      && ShapedNode(c, a.leader) && c.nodes[a.leader].role == Leader
      && r.success && r.term == c.nodes[a.leader].term
    ensures var m := Run(mode, Init(n), acts).nodes[a.leader];
      var m' := HandleAppend(m, from, a, r);
      m'.matched[from] <= LastIndex(m') && m'.next[from] <= LastIndex(m') + 1
  {
    hide ClusterInv;
    RunInv(mode, n, acts);
    var c := Run(mode, Init(n), acts);
    var m := c.nodes[a.leader];
    CountedKnown(c, from, a, r, from);
    KnownFits(c, a.leader, Counted(m, from, a), from);
    CountedHandle(m, from, a, r);
  }

  lemma KnownFits(c: Cluster, i: nat, m: Node, p: nat)
    requires ClusterInv(c) && i < |c.nodes| && c.nodes[i].role == Leader && p < |m.matched|
    requires m.term == c.nodes[i].term && m.commit == c.nodes[i].commit && Known(c.h, m, p)
    ensures m.matched[p] <= LastIndex(c.nodes[i])
  {
    hide UnsentOk, E.ElectionInv;
    LeaderTerm(c, i);
    Member(c, i);
    FullLog(c.nodes[i]);
    if Acked(c.h, m.term, p, m.matched[p]) {
      var a :| a in c.h.acks && a.term == m.term && a.node == p && a.len >= m.matched[p];
      assert AckOk(View(c), a);
    }
  }

  // ------------------------------------------------------------------ the index invariant

  lemma StepShapedVotes(c: Cluster, a: Action)
    requires Shaped(c) && (a.Timeout? || a.OnVote? || a.OnVoteAnswer?)
    ensures Shaped(Do(AsWritten, c, a))
  {
    match a
    case Timeout(i) =>
      if i < |c.nodes| {
        assert ShapedNode(c, i);
        ShapeStays(c, i, StartElection(c.nodes[i]), DoTimeout(c, i));
      }
    case OnVote(i, v) =>
      if i < |c.nodes| {
        assert ShapedNode(c, i);
        R.ElectionSteady(c.nodes[i], v);
        ShapeStays(c, i, ReceiveVote(c.nodes[i], v).0, DoVote(c, i, v));
      }
    case OnVoteAnswer(from, v, r) =>
      if v.candidate < |c.nodes| {
        assert ShapedNode(c, v.candidate);
        R.AnswerVoteSteady(c.nodes[v.candidate], from, v, r);
        ShapeStays(c, v.candidate, AnswerVote(c.nodes[v.candidate], from, v, r), DoVoteAnswer(c, from, v, r));
      }
  }

  lemma ShapeStays(c: Cluster, i: nat, n: Node, c': Cluster)
    requires Shaped(c) && i < |c.nodes| && c'.nodes == c.nodes[i := n]
    requires NodeOk(n) && n.id == i && n.size == |c.nodes|
    ensures Shaped(c')
  {
    forall j | 0 <= j < |c'.nodes| ensures ShapedNode(c', j) {
      assert ShapedNode(c, j);
    }
  }

  lemma StepShapedLogs(c: Cluster, a: Action)
    requires Shaped(c) && (a.Beat? || a.OnAppend? || a.OnResume? || a.OnAppendAnswer? || a.Command?)
    ensures Shaped(Do(AsWritten, c, a))
  {
    hide Heartbeat, ResumeAppend, HandleAppend, ReceiveAppend;
    match a
    case Beat(i, p) =>
      if i < |c.nodes| && p < |c.nodes| {
        assert ShapedNode(c, i);
        R.LeaderSteady(c.nodes[i], p, "", 0);
        E.HeartbeatMovesNext(AsWritten, c.nodes[i], p);
        var (m, b) := Heartbeat(AsWritten, c.nodes[i], p);
        if !Stops(b) {
          ShapeStays(c, i, m, DoBeat(AsWritten, c, i, p));
        }
      }
    case OnAppend(i, e) =>
      if i < |c.nodes| && AskAppend(i, e) in c.net {
        assert ShapedNode(c, i);
        R.ReceiveAppendSteady(c.nodes[i], e);
        ReceiveShape(c.nodes[i], e);
        if !ReceiveAppend(c.nodes[i], e).Exited? {
          ShapeStays(c, i, ReceiveAppend(c.nodes[i], e).node, DoAppend(c, i, e));
        }
      }
    case OnResume(i, e, ws, synced) =>
      if i < |c.nodes| && Gap(i, e, ws) in c.net {
        assert ShapedNode(c, i);
        R.ResumeAppendSteady(c.nodes[i], e, ws, synced);
        ResumeShape(c.nodes[i], e, ws, synced);
        ShapeStays(c, i, ResumeAppend(AsWritten, c.nodes[i], e, ws, synced).0, DoResume(AsWritten, c, i, e, ws, synced));
      }
    case OnAppendAnswer(from, e, r) =>
      if e.leader < |c.nodes| && from < |c.nodes| {
        assert ShapedNode(c, e.leader);
        R.HandleAppendSteady(c.nodes[e.leader], from, e, r);
        HandleShape(c.nodes[e.leader], from, e, r);
        ShapeStays(c, e.leader, HandleAppend(c.nodes[e.leader], from, e, r), DoAppendAnswer(c, from, e, r));
      }
    case Command(i, command) =>
      if i < |c.nodes| {
        assert ShapedNode(c, i);
        ShapeStays(c, i, StartCommand(c.nodes[i], command), DoCommand(c, i, command));
      }
  }

  lemma ReceiveShape(n: Node, a: AppendArgs)
    requires IndexOk(n)
    ensures !ReceiveAppend(n, a).Exited? ==>
      ReceiveAppend(n, a).node.id == n.id && ReceiveAppend(n, a).node.size == n.size
  {}

  lemma ResumeShape(n: Node, a: AppendArgs, ws: seq<Write>, synced: bool)
    requires IndexOk(n)
    ensures var m := ResumeAppend(AsWritten, n, a, ws, synced).0; m.id == n.id && m.size == n.size
  {}

  lemma HandleShape(n: Node, from: nat, a: AppendArgs, r: AppendReply)
    requires NodeOk(n) && from < n.size
    ensures var m := HandleAppend(n, from, a, r); m.id == n.id && m.size == n.size
  {}

  lemma SnapshotShape(n: Node, from: nat, s: SnapshotArgs, t: int, index: int)
    requires NodeOk(n) && from < n.size
    ensures InstallSnapshot(AsWritten, n, s).id == n.id && InstallSnapshot(AsWritten, n, s).size == n.size
    ensures HandleSnapshot(n, from, s, t).id == n.id && HandleSnapshot(n, from, s, t).size == n.size
    ensures TakeSnapshot(n, index).id == n.id && TakeSnapshot(n, index).size == n.size
    ensures ApplyCommitted(n).0.id == n.id && ApplyCommitted(n).0.size == n.size
    ensures LogFailed(n, index).id == n.id && LogFailed(n, index).size == n.size
    ensures LogStable(n, index).id == n.id && LogStable(n, index).size == n.size
  {}

  lemma StepShapedSnapshots(c: Cluster, a: Action)
    requires Shaped(c) && (a.OnInstall? || a.OnInstallAnswer?)
    ensures Shaped(Do(AsWritten, c, a))
  {
    hide InstallSnapshot, HandleSnapshot, TakeSnapshot, ApplyCommitted;
    match a
    case OnInstall(i, s) =>
      if i < |c.nodes| && AskInstall(s) in c.net {
        assert ShapedNode(c, i);
        R.InstallSteady(c.nodes[i], s);
        SnapshotShape(c.nodes[i], i, s, 0, 0);
        ShapeStays(c, i, InstallSnapshot(AsWritten, c.nodes[i], s), DoInstall(AsWritten, c, i, s));
      }
    case OnInstallAnswer(from, s, t) =>
      if s.leader < |c.nodes| && from < |c.nodes| && InstallAnswer(from, s, t) in c.net {
        assert ShapedNode(c, s.leader);
        R.SnapshotSteady(c.nodes[s.leader], from, s, t, 0);
        SnapshotShape(c.nodes[s.leader], from, s, t, 0);
        ShapeStays(c, s.leader, HandleSnapshot(c.nodes[s.leader], from, s, t), DoInstallAnswer(c, from, s, t));
      }
  }

  /** The node after a step that concerns nobody else. */
  function Alone(n: Node, a: Action): Node
    requires NodeOk(n)
  {
    match a
    case Synced(_, index) => LogStable(n, index)
    case Failed(_, index) => LogFailed(n, index)
    case Compact(_, index) => TakeSnapshot(n, index)
    case ApplyRound(_) => ApplyCommitted(n).0
    case _ => n
  }

  lemma AloneShape(n: Node, a: Action, index: int)
    requires NodeOk(n) && ((a.Synced? || a.Failed? || a.Compact?) ==> a.index == index)
    ensures NodeOk(Alone(n, a)) && Alone(n, a).id == n.id && Alone(n, a).size == n.size
  {
    hide TakeSnapshot, ApplyCommitted, LogFailed, LogStable;
    R.LeaderSteady(n, n.id, "", index);
    R.SnapshotSteady(n, n.id, SnapshotRequest(n), 0, index);
    SnapshotShape(n, n.id, SnapshotRequest(n), 0, index);
  }

  lemma StepAlone(c: Cluster, a: Action)
    requires Shaped(c) && (a.Synced? || a.Failed? || a.Compact? || a.SendSnapshot? || a.ApplyRound?)
    requires a.i < |c.nodes| && ShapedNode(c, a.i)
    ensures Do(AsWritten, c, a).nodes == c.nodes[a.i := Alone(c.nodes[a.i], a)]
  {
    hide TakeSnapshot, ApplyCommitted, LogFailed, LogStable, NodeOk;
    assert c.nodes[a.i := c.nodes[a.i]] == c.nodes;
  }

  lemma StepShapedLocal(c: Cluster, a: Action)
    requires Shaped(c) && (a.Synced? || a.Failed? || a.Compact? || a.SendSnapshot? || a.ApplyRound?)
    ensures Shaped(Do(AsWritten, c, a))
  {
    if a.i < |c.nodes| {
      var i, n := a.i, c.nodes[a.i];
      assert ShapedNode(c, i) && NodeOk(n) && n.id == i && n.size == |c.nodes|;
      hide Do, Alone, Shaped, NodeOk;
      StepAlone(c, a);
      AloneShape(n, a, if a.Synced? || a.Failed? || a.Compact? then a.index else 0);
      ShapeStays(c, i, Alone(n, a), Do(AsWritten, c, a));
    }
  }

  lemma StepShaped(c: Cluster, a: Action)
    requires Shaped(c)
    ensures Shaped(Do(AsWritten, c, a))
  {
    hide Do, Shaped;
    if a.Timeout? || a.OnVote? || a.OnVoteAnswer? {
      StepShapedVotes(c, a);
    } else if a.Beat? || a.OnAppend? || a.OnResume? || a.OnAppendAnswer? || a.Command? {
      StepShapedLogs(c, a);
    } else if a.OnInstall? || a.OnInstallAnswer? {
      StepShapedSnapshots(c, a);
    } else {
      StepShapedLocal(c, a);
    }
  }

  /** As written every run, and repaired every careful one, keeps the index invariant that the handlers rely on. */
  lemma {:induction false} RunShaped(mode: Mode, n: nat, acts: seq<Action>)
    requires mode == Intended ==> Careful(mode, n, acts)
    ensures Shaped(Run(mode, Init(n), acts))
    decreases |acts|
  {
    if mode == Intended {
      RunInv(mode, n, acts);
      InvIsShaped(Run(mode, Init(n), acts));
    } else if acts == [] {
      InitInv(n);
      InvIsShaped(Init(n));
    } else {
      RunShaped(mode, n, acts[..|acts| - 1]);
      StepShaped(Run(mode, Init(n), acts[..|acts| - 1]), acts[|acts| - 1]);
    }
  }
}
