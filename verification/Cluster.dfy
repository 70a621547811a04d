/**
  A cluster of Raft servers and the messages between them. The network is the set of everything ever
  sent: a message may be delivered at any time, again, out of order, or never. A request stopped in
  the gap of AppendEntries is kept the same way. The history component records what happened, and
  forgets entries that a server gives up because their write failed; no step reads it.
 */
module Cluster {
  import opened RaftTypes
  import opened RaftNode
  import opened Protocol

  datatype Message =
    | AskVote(vote: VoteArgs)
    | VoteAnswer(from: nat, vote: VoteArgs, voteReply: VoteReply)
    | AskAppend(to: nat, append: AppendArgs)
    | Gap(at: nat, append: AppendArgs, writes: seq<Write>)
    | AppendAnswer(from: nat, append: AppendArgs, appendReply: AppendReply)
    | AskInstall(snapshot: SnapshotArgs)
    | InstallAnswer(from: nat, snapshot: SnapshotArgs, term: int)

  datatype Cluster = Cluster(nodes: seq<Node>, net: set<Message>, h: History)

  /** A server on its first start: nothing persisted, so the node file reads as zeros. */
  function FreshNode(i: nat, n: nat): Node {
    Node(i, n, 0, 0, Follower, [], 0, 0, [], 0, 0, 0, seq(n, _ => 0), seq(n, _ => 0), 0, {}, {})
  }

  function Init(n: nat): Cluster {
    Cluster(seq(n, i requires 0 <= i => FreshNode(i, n)), {}, History(map[], {}, {}, {}))
  }

  datatype Action =
    | Timeout(i: nat)
    | OnVote(i: nat, vote: VoteArgs)
    | OnVoteAnswer(from: nat, vote: VoteArgs, voteReply: VoteReply)
    | Beat(i: nat, p: nat)
    | OnAppend(i: nat, append: AppendArgs)
    | OnResume(i: nat, append: AppendArgs, writes: seq<Write>, synced: bool)
    | OnAppendAnswer(from: nat, append: AppendArgs, appendReply: AppendReply)
    | Command(i: nat, command: string)
    | Synced(i: nat, index: int)
    | Failed(i: nat, index: int)
    | Compact(i: nat, index: int)
    | SendSnapshot(i: nat)
    | OnInstall(i: nat, snapshot: SnapshotArgs)
    | OnInstallAnswer(from: nat, snapshot: SnapshotArgs, term: int)
    | ApplyRound(i: nat)

  /** Every node is itself and keeps the index invariant that its handlers rely on. */
  ghost predicate Shaped(c: Cluster) {
    forall i :: 0 <= i < |c.nodes| ==> ShapedNode(c, i)
  }

  ghost predicate ShapedNode(c: Cluster, i: nat)
    requires i < |c.nodes|
  {
    NodeOk(c.nodes[i]) && c.nodes[i].id == i && c.nodes[i].size == |c.nodes|
  }

  /** The log from index 1 on, with what the snapshot covers. */
  function Full(n: Node): seq<Entry> {
    n.snapData + n.log
  }

  function With(c: Cluster, i: nat, n: Node, sent: set<Message>, h: History): Cluster
    requires i < |c.nodes|
  {
    Cluster(c.nodes[i := n], c.net + sent, h)
  }

  // ------------------------------------------------------------------ steps

  function DoTimeout(c: Cluster, i: nat): Cluster
    requires i < |c.nodes|
  {
    var n := c.nodes[i];
    var m := StartElection(n);
    if n.role == Leader then c
    else With(c, i, m, {AskVote(VoteRequest(m))}, c.h.(votes := c.h.votes + {Vote(m.term, i, i)}))
  }

  function DoVote(c: Cluster, i: nat, a: VoteArgs): Cluster
    requires i < |c.nodes|
  {
    var (m, r) := ReceiveVote(c.nodes[i], a);
    With(c, i, m, {VoteAnswer(i, a, r)},
         if r.granted then c.h.(votes := c.h.votes + {Vote(m.term, i, a.candidate)}) else c.h)
  }

  function DoVoteAnswer(c: Cluster, from: nat, a: VoteArgs, r: VoteReply): Cluster
    requires a.candidate < |c.nodes|
  {
    var n := c.nodes[a.candidate];
    var m := AnswerVote(n, from, a, r);
    With(c, a.candidate, m, {},
         if n.role != Leader && m.role == Leader then
           c.h.(reigns := c.h.reigns[n.term := Reign(a.candidate, Full(n), Full(n), m.granters + {a.candidate})])
         else c.h)
  }

  ghost function DoBeat(mode: Mode, c: Cluster, i: nat, p: nat): Cluster
    requires i < |c.nodes| && p < |c.nodes| && ShapedNode(c, i)
  {
    var (m, b) := Heartbeat(mode, c.nodes[i], p);
    if Stops(b) then c
    else With(c, i, m, if b.Send? then {AskAppend(p, b.args)} else {}, c.h)
  }

  ghost function DoAppend(c: Cluster, i: nat, a: AppendArgs): Cluster
    requires i < |c.nodes| && ShapedNode(c, i)
  {
    match ReceiveAppend(c.nodes[i], a)
    case Exited => c
    case Answered(m, r) => With(c, i, m, {AppendAnswer(i, a, r)}, c.h)
    case Paused(m, ws) => With(c, i, m, {Gap(i, a, ws)}, c.h)
  }

  ghost function DoResume(mode: Mode, c: Cluster, i: nat, a: AppendArgs, ws: seq<Write>, synced: bool): Cluster
    requires i < |c.nodes| && ShapedNode(c, i)
  {
    var (m, r) := ResumeAppend(mode, c.nodes[i], a, ws, synced);
    With(c, i, m, {AppendAnswer(i, a, r)},
         if r.success then c.h.(acks := c.h.acks + {Ack(m.term, i, a.prevIndex + |a.entries|)}) else c.h)
  }

  ghost function DoAppendAnswer(c: Cluster, from: nat, a: AppendArgs, r: AppendReply): Cluster
    requires a.leader < |c.nodes| && from < |c.nodes| && ShapedNode(c, a.leader)
  {
    var n := c.nodes[a.leader];
    var m := HandleAppend(n, from, a, r);
    With(c, a.leader, m, {},
         if m.commit > n.commit then
           c.h.(acks := c.h.acks + {Ack(m.term, a.leader, m.commit)},
                commits := c.h.commits + {Commit(m.term, m.commit)})
         else c.h)
  }

  function DoCommand(c: Cluster, i: nat, command: string): Cluster
    requires i < |c.nodes|
  {
    var n := c.nodes[i];
    var m := StartCommand(n, command);
    With(c, i, m, {},
         if n.role == Leader && n.term in c.h.reigns then
           c.h.(reigns := c.h.reigns[n.term := c.h.reigns[n.term].(log := Full(m))])
         else c.h)
  }

  ghost function DoInstall(mode: Mode, c: Cluster, i: nat, s: SnapshotArgs): Cluster
    requires i < |c.nodes| && ShapedNode(c, i)
  {
    var n := c.nodes[i];
    var m := InstallSnapshot(mode, n, s);
    With(c, i, m, {InstallAnswer(i, s, m.term)}, c.h)
  }

  ghost function DoInstallAnswer(c: Cluster, from: nat, s: SnapshotArgs, t: int): Cluster
    requires s.leader < |c.nodes| && from < |c.nodes| && ShapedNode(c, s.leader)
  {
    With(c, s.leader, HandleSnapshot(c.nodes[s.leader], from, s, t), {}, c.h)
  }

  ghost function DoSynced(c: Cluster, i: nat, index: int): Cluster
    requires i < |c.nodes|
  {
    With(c, i, LogStable(c.nodes[i], index), {}, c.h)
  }

  /** A log write has failed. The record forgets what the server gives up. */
  ghost function DoFailed(c: Cluster, i: nat, index: int): Cluster
    requires i < |c.nodes| && ShapedNode(c, i)
  {
    var n := c.nodes[i];
    var m := LogFailed(n, index);
    With(c, i, m, {},
         if m == n then c.h
         else c.h.(reigns := Forget(c.h.reigns, |Full(m)|, Full(n)[|Full(m)|])))
  }

  ghost function DoCompact(c: Cluster, i: nat, index: int): Cluster
    requires i < |c.nodes| && ShapedNode(c, i)
  {
    With(c, i, TakeSnapshot(c.nodes[i], index), {}, c.h)
  }

  ghost function DoSendSnapshot(c: Cluster, i: nat): Cluster
    requires i < |c.nodes|
  {
    With(c, i, c.nodes[i], {AskInstall(SnapshotRequest(c.nodes[i]))}, c.h)
  }

  ghost function DoApplyRound(c: Cluster, i: nat): Cluster
    requires i < |c.nodes| && ShapedNode(c, i)
  {
    With(c, i, ApplyCommitted(c.nodes[i]).0, {}, c.h)
  }

  /** One step of the cluster. An action that is not possible changes nothing. */
  ghost function Do(mode: Mode, c: Cluster, a: Action): Cluster {
    if !Shaped(c) then c else
    match a
    case Timeout(i) => if i < |c.nodes| then DoTimeout(c, i) else c
    case OnVote(i, v) =>
      if i < |c.nodes| && AskVote(v) in c.net && i != v.candidate then DoVote(c, i, v) else c
    case OnVoteAnswer(from, v, r) =>
      if v.candidate < |c.nodes| && VoteAnswer(from, v, r) in c.net then DoVoteAnswer(c, from, v, r) else c
    case Beat(i, p) => if i < |c.nodes| && p < |c.nodes| then DoBeat(mode, c, i, p) else c
    case OnAppend(i, e) => if i < |c.nodes| && AskAppend(i, e) in c.net then DoAppend(c, i, e) else c
    case OnResume(i, e, ws, synced) =>
      if i < |c.nodes| && Gap(i, e, ws) in c.net then DoResume(mode, c, i, e, ws, synced) else c
    case OnAppendAnswer(from, e, r) =>
      if e.leader < |c.nodes| && from < |c.nodes| && AppendAnswer(from, e, r) in c.net
      then DoAppendAnswer(c, from, e, r) else c
    case Command(i, command) => if i < |c.nodes| then DoCommand(c, i, command) else c
    case Synced(i, index) => if i < |c.nodes| then DoSynced(c, i, index) else c
    case Failed(i, index) => if i < |c.nodes| then DoFailed(c, i, index) else c
    case Compact(i, index) => if i < |c.nodes| then DoCompact(c, i, index) else c
    case SendSnapshot(i) => if i < |c.nodes| then DoSendSnapshot(c, i) else c
    case OnInstall(i, s) => if i < |c.nodes| && AskInstall(s) in c.net then DoInstall(mode, c, i, s) else c
    case OnInstallAnswer(from, s, t) =>
      if s.leader < |c.nodes| && from < |c.nodes| && InstallAnswer(from, s, t) in c.net
      then DoInstallAnswer(c, from, s, t) else c
    case ApplyRound(i) => if i < |c.nodes| then DoApplyRound(c, i) else c
  }

  /** The cluster after a sequence of steps. */
  ghost function Run(mode: Mode, c: Cluster, acts: seq<Action>): Cluster
    decreases |acts|
  {
    if acts == [] then c else Do(mode, Run(mode, c, acts[..|acts| - 1]), acts[|acts| - 1])
  }

  // ------------------------------------------------------------------ the protocol's view

  function Abs(n: Node): PNode {
    PNode(n.term, n.vote, n.role, Full(n), n.commit)
  }

  function View(c: Cluster): State {
    State(seq(|c.nodes|, i requires 0 <= i < |c.nodes| => Abs(c.nodes[i])), c.h)
  }

  lemma ViewWith(c: Cluster, i: nat, n: Node, sent: set<Message>, h: History)
    requires i < |c.nodes|
    ensures View(With(c, i, n, sent, h)) == State(View(c).nodes[i := Abs(n)], h)
  {}
}
