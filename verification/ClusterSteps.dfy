/** What single steps do to the cluster's nodes and messages, for putting concrete runs together. */
module ClusterSteps {
  import opened RaftTypes
  import opened RaftNode
  import opened Cluster

  lemma ShapedAt(c: Cluster, i: nat)
    requires Shaped(c) && i < |c.nodes|
    ensures ShapedNode(c, i)
  {}

  /** Message m is sent by a step that turns node i into n. */
  ghost predicate Sent(c: Cluster, d: Cluster, i: nat, n: Node, m: Message) {
    i < |c.nodes| && d.nodes == c.nodes[i := n] && c.net <= d.net && m in d.net
  }

  ghost predicate Changed(c: Cluster, d: Cluster, i: nat, n: Node) {
    i < |c.nodes| && d.nodes == c.nodes[i := n] && c.net <= d.net
  }

  lemma TimeoutAt(mode: Mode, c: Cluster, i: nat)
    requires Shaped(c) && i < |c.nodes| && c.nodes[i].role != Leader
    ensures var m := StartElection(c.nodes[i]);
      Sent(c, Do(mode, c, Timeout(i)), i, m, AskVote(VoteRequest(m)))
  {}

  lemma VoteAt(mode: Mode, c: Cluster, i: nat, a: VoteArgs)
    requires Shaped(c) && i < |c.nodes| && AskVote(a) in c.net && i != a.candidate
    ensures var (m, r) := ReceiveVote(c.nodes[i], a);
      Sent(c, Do(mode, c, OnVote(i, a)), i, m, VoteAnswer(i, a, r))
  {}

  lemma AnswerAt(mode: Mode, c: Cluster, from: nat, a: VoteArgs, r: VoteReply)
    requires Shaped(c) && a.candidate < |c.nodes| && VoteAnswer(from, a, r) in c.net
    ensures Changed(c, Do(mode, c, OnVoteAnswer(from, a, r)), a.candidate,
                    AnswerVote(c.nodes[a.candidate], from, a, r))
  {}

  lemma BeatAt(mode: Mode, c: Cluster, i: nat, p: nat)
    requires Shaped(c) && i < |c.nodes| && p < |c.nodes| && ShapedNode(c, i)
    requires Heartbeat(mode, c.nodes[i], p).1.Send?
    ensures var (m, b) := Heartbeat(mode, c.nodes[i], p);
      Sent(c, Do(mode, c, Beat(i, p)), i, m, AskAppend(p, b.args))
  {
    hide Heartbeat;
  }

  lemma AppendAt(mode: Mode, c: Cluster, i: nat, a: AppendArgs)
    requires Shaped(c) && i < |c.nodes| && AskAppend(i, a) in c.net && ShapedNode(c, i)
    ensures match ReceiveAppend(c.nodes[i], a)
      case Exited => true
      case Answered(m, r) => Sent(c, Do(mode, c, OnAppend(i, a)), i, m, AppendAnswer(i, a, r))
      case Paused(m, ws) => Sent(c, Do(mode, c, OnAppend(i, a)), i, m, Gap(i, a, ws))
  {
    hide ReceiveAppend;
  }

  lemma ResumeAt(mode: Mode, c: Cluster, i: nat, a: AppendArgs, ws: seq<Write>)
    requires Shaped(c) && i < |c.nodes| && Gap(i, a, ws) in c.net && ShapedNode(c, i)
    ensures var (m, r) := ResumeAppend(mode, c.nodes[i], a, ws, true);
      Sent(c, Do(mode, c, OnResume(i, a, ws, true)), i, m, AppendAnswer(i, a, r))
  {
    hide ResumeAppend;
  }

  lemma AppendAnswerAt(mode: Mode, c: Cluster, from: nat, a: AppendArgs, r: AppendReply)
    requires Shaped(c) && a.leader < |c.nodes| && from < |c.nodes| && AppendAnswer(from, a, r) in c.net
    requires ShapedNode(c, a.leader)
    ensures Changed(c, Do(mode, c, OnAppendAnswer(from, a, r)), a.leader,
                    HandleAppend(c.nodes[a.leader], from, a, r))
  {
    hide HandleAppend;
  }

  lemma CommandAt(mode: Mode, c: Cluster, i: nat, command: string)
    requires Shaped(c) && i < |c.nodes|
    ensures Changed(c, Do(mode, c, Command(i, command)), i, StartCommand(c.nodes[i], command))
  {}

  lemma SyncedAt(mode: Mode, c: Cluster, i: nat, index: int)
    requires Shaped(c) && i < |c.nodes|
    ensures Changed(c, Do(mode, c, Synced(i, index)), i, LogStable(c.nodes[i], index))
  {}

  lemma CompactAt(mode: Mode, c: Cluster, i: nat, index: int)
    requires Shaped(c) && i < |c.nodes| && ShapedNode(c, i)
    ensures Changed(c, Do(mode, c, Compact(i, index)), i, TakeSnapshot(c.nodes[i], index))
  {
    hide TakeSnapshot;
  }

  lemma SendSnapshotAt(mode: Mode, c: Cluster, i: nat)
    requires Shaped(c) && i < |c.nodes|
    ensures Sent(c, Do(mode, c, SendSnapshot(i)), i, c.nodes[i], AskInstall(SnapshotRequest(c.nodes[i])))
  {}

  lemma InstallAt(mode: Mode, c: Cluster, i: nat, s: SnapshotArgs)
    requires Shaped(c) && i < |c.nodes| && AskInstall(s) in c.net && ShapedNode(c, i)
    ensures var m := InstallSnapshot(mode, c.nodes[i], s);
      Sent(c, Do(mode, c, OnInstall(i, s)), i, m, InstallAnswer(i, s, m.term))
  {
    hide InstallSnapshot;
  }

  lemma InstallAnswerAt(mode: Mode, c: Cluster, from: nat, s: SnapshotArgs, t: int)
    requires Shaped(c) && s.leader < |c.nodes| && from < |c.nodes| && InstallAnswer(from, s, t) in c.net
    requires ShapedNode(c, s.leader)
    ensures Changed(c, Do(mode, c, OnInstallAnswer(from, s, t)), s.leader, HandleSnapshot(c.nodes[s.leader], from, s, t))
  {
    hide HandleSnapshot;
  }
}
