/**
  How a leader finds where a follower's log meets its own: a heartbeat, the follower's answer, the answer
  handled, and again, until a request is taken or a snapshot has to be sent.
 */
module Probing {
  import opened RaftTypes
  import opened RaftNode
  import opened RaftHandlers
  import opened Cluster
  import opened ClusterSteps
  import opened ReplicationInv
  import R = RaftIndices
  import D = RaftDepartures
  import S = RaftSafety

  /** One exchange: the heartbeat to p, the follower's answer, and what the leader makes of a refusal. */
  function Exchange(mode: Mode, n: Node, f: Node, p: nat): (r: (Node, Node))
    requires NodeOk(n) && NodeOk(f) && p < n.size
    ensures NodeOk(r.0) && NodeOk(r.1) && r.0.size == n.size
  {
    BeatKeeps(mode, n, p);
    hide Heartbeat, ReceiveAppend, HandleAppend, NodeOk;
    var (m, b) := Heartbeat(mode, n, p);
    if !b.Send? then (m, f) else
    match ReceiveAppend(f, b.args)
    case Answered(g, r) =>
      RefusalKeeps(m, p, b.args, r);
      R.ReceiveAppendSteady(f, b.args);
      (HandleAppend(m, p, b.args, r), g)
    case Exited => (m, f)
    case Paused(g, _) => R.ReceiveAppendSteady(f, b.args); (m, g)
  }

  lemma BeatKeeps(mode: Mode, n: Node, p: nat)
    requires NodeOk(n) && p < n.size
    ensures NodeOk(Heartbeat(mode, n, p).0) && Heartbeat(mode, n, p).0.size == n.size
  {}

  lemma RefusalKeeps(n: Node, p: nat, a: AppendArgs, r: AppendReply)
    requires NodeOk(n) && p < n.size
    ensures NodeOk(HandleAppend(n, p, a, r)) && HandleAppend(n, p, a, r).size == n.size
  {
    R.HandleAppendSteady(n, p, a, r);
  }

  /** Several exchanges, one after the other. */
  function Exchanges(mode: Mode, n: Node, f: Node, p: nat, k: nat): (r: (Node, Node))
    requires NodeOk(n) && NodeOk(f) && p < n.size
    ensures NodeOk(r.0) && NodeOk(r.1) && r.0.size == n.size
    decreases k
  {
    if k == 0 then (n, f) else
    var (m, g) := Exchange(mode, n, f, p);
    Exchanges(mode, m, g, p, k - 1)
  }

  /** The follower refuses what the leader sends. */
  predicate Refused(mode: Mode, n: Node, f: Node, p: nat)
    requires NodeOk(n) && NodeOk(f) && p < n.size
  {
    var b := Heartbeat(mode, n, p).1;
    b.Send? && ReceiveAppend(f, b.args).Answered?
  }

  /** What the leader sends connects to the follower's log, or the peer needs a snapshot. */
  predicate Served(mode: Mode, n: Node, f: Node, p: nat)
    requires NodeOk(n) && NodeOk(f) && p < n.size
  {
    var b := Heartbeat(mode, n, p).1;
    b.Lagging? || (b.Send? && f.term <= n.term && Connects(f, b.args))
  }

  /** A leader and a server whose snapshot is part of the leader's log, as far as the leader still has it. */
  ghost predicate Facing(n: Node, f: Node, p: nat) {
    && NodeOk(n) && NodeOk(f) && R.StableInLog(n) && n.role == Leader && f.term <= n.term && p < n.size && p != n.id
    && (Holds(n, f.snapIndex) ==> TermAt(n, f.snapIndex) == f.snapTerm)
  }

  /**
    A refusal: the follower's log does not change, and of the leader only this peer's next index does. It
    falls below what was sent, and stays above the follower's snapshot, or goes there from below.
   */
  lemma RefusalFalls(mode: Mode, n: Node, f: Node, p: nat)
    requires Facing(n, f, p) && Refused(mode, n, f, p)
    ensures var (m, g) := Exchange(mode, n, f, p);
      var prev := Heartbeat(mode, n, p).1.args.prevIndex;
      && m == n.(next := m.next) && |m.next| == |n.next|
      && (forall q :: 0 <= q < |n.next| && q != p ==> m.next[q] == n.next[q])
      && Follows(f, g, n.term)
      && prev <= Min(n.next[p] - 1, n.stable) && f.snapIndex < m.next[p]
      && (if prev < f.snapIndex then m.next[p] == f.snapIndex + 1 else m.next[p] <= prev)
      && !Connects(f, Heartbeat(mode, n, p).1.args)
  {
    var (k, b) := Heartbeat(mode, n, p);
    D.HeartbeatCovers(mode, n, p, 0);
    D.HeartbeatClamps(mode, n, p);
    BeatKeeps(mode, n, p);
    ReceiveExact(f, b.args);
    RefusalExact(k, p, b.args, ReceiveAppend(f, b.args).reply);
    hide Heartbeat, ReceiveAppend, HandleAppend;
  }

  // ------------------------------------------------------------------ until the logs meet

  predicate ServedAfter(mode: Mode, n: Node, f: Node, p: nat, k: nat)
    requires NodeOk(n) && NodeOk(f) && p < n.size
  {
    var (m, g) := Exchanges(mode, n, f, p, k);
    Served(mode, m, g, p)
  }

  predicate RefusedAfter(mode: Mode, n: Node, f: Node, p: nat, k: nat)
    requires NodeOk(n) && NodeOk(f) && p < n.size
  {
    var (m, g) := Exchanges(mode, n, f, p, k);
    Refused(mode, m, g, p)
  }

  /** The next index lies where a heartbeat can serve it, or needs a snapshot. */
  predicate InReach(mode: Mode, n: Node, p: nat)
    requires p < |n.next|
  {
    1 <= n.next[p] <= D.Top(mode, n)
  }

  /** The index before what is sent next. */
  function Prev(n: Node, p: nat): int
    requires p < |n.next|
  {
    Min(n.next[p] - 1, n.stable)
  }

  /** Either the request connects, or it is refused, or a snapshot is needed. */
  lemma OneExchange(mode: Mode, n: Node, f: Node, p: nat)
    requires Facing(n, f, p) && InReach(mode, n, p)
    ensures Served(mode, n, f, p) || Refused(mode, n, f, p)
    ensures n.next[p] <= n.snapIndex ==> Served(mode, n, f, p)
    ensures Refused(mode, n, f, p) ==> n.snapIndex < n.next[p] && Prev(n, p) != f.snapIndex
  {
    D.HeartbeatExact(mode, n, p);
    var b := Heartbeat(mode, n, p).1;
    if b.Send? {
      D.HeartbeatCovers(mode, n, p, 0);
      ReceiveExact(f, b.args);
    }
    hide Heartbeat, ReceiveAppend, HintFits;
  }

  lemma StillFacing(mode: Mode, n: Node, f: Node, p: nat)
    requires Facing(n, f, p) && InReach(mode, n, p) && Refused(mode, n, f, p) && f.snapIndex <= n.stable
    ensures var (m, g) := Exchange(mode, n, f, p);
      && Facing(m, g, p) && InReach(mode, m, p) && p < |m.next| && m.stable == n.stable && g.snapIndex == f.snapIndex
      && (if Prev(n, p) < f.snapIndex then Prev(m, p) == f.snapIndex else f.snapIndex <= Prev(m, p) < Prev(n, p))
  {
    RefusalFalls(mode, n, f, p);
    D.HeartbeatCovers(mode, n, p, 0);
    hide Exchange, Refused, Heartbeat;
  }

  /** The first k requests are refused, and then one is taken or a snapshot is needed. */
  ghost predicate EndsAfter(mode: Mode, n: Node, f: Node, p: nat, k: nat)
    requires NodeOk(n) && NodeOk(f) && p < n.size
  {
    ServedAfter(mode, n, f, p, k) && forall j: nat :: j < k ==> RefusedAfter(mode, n, f, p, j)
  }

  lemma EndsNow(mode: Mode, n: Node, f: Node, p: nat)
    requires NodeOk(n) && NodeOk(f) && p < n.size && Served(mode, n, f, p)
    ensures EndsAfter(mode, n, f, p, 0)
  {}

  lemma EndsLater(mode: Mode, n: Node, f: Node, p: nat, k: nat)
    requires NodeOk(n) && NodeOk(f) && p < n.size && Refused(mode, n, f, p)
    requires var (m, g) := Exchange(mode, n, f, p); EndsAfter(mode, m, g, p, k)
    ensures EndsAfter(mode, n, f, p, k + 1)
  {
    hide Exchange, Served, Refused, NodeOk;
    var (m, g) := Exchange(mode, n, f, p);
    forall j: nat | 0 < j < k + 1 ensures RefusedAfter(mode, n, f, p, j) {
      assert RefusedAfter(mode, m, g, p, j - 1);
    }
  }

  lemma Able(n: Node, f: Node, p: nat)
    requires Facing(n, f, p)
    ensures NodeOk(n) && NodeOk(f) && p < n.size && p < |n.next|
  {}

  /** At most one exchange for each index between the follower's snapshot and what the leader sends first. */
  lemma {:induction false} ProbingEnds(mode: Mode, n: Node, f: Node, p: nat) returns (k: nat)
    requires Facing(n, f, p) && InReach(mode, n, p) && (n.next[p] <= n.snapIndex || f.snapIndex <= n.stable)
    ensures EndsAfter(mode, n, f, p, k)
    ensures k <= if Prev(n, p) < f.snapIndex then 1 else Prev(n, p) - f.snapIndex
    decreases Prev(n, p) < f.snapIndex, Prev(n, p) - f.snapIndex
  {
    hide *;
    Able(n, f, p);
    OneExchange(mode, n, f, p);
    if Served(mode, n, f, p) {
      k := 0;
      EndsNow(mode, n, f, p);
    } else {
      StillFacing(mode, n, f, p);
      var (m, g) := Exchange(mode, n, f, p);
      k := ProbingEnds(mode, m, g, p);
      EndsLater(mode, n, f, p, k);
      k := k + 1;
    }
  }

  /** The follower's snapshot reaches beyond what the leader has on disk. */
  ghost predicate Ahead(n: Node, f: Node, p: nat) {
    Facing(n, f, p) && n.stable < f.snapIndex && n.snapIndex < n.next[p]
  }

  lemma AheadRefused(mode: Mode, n: Node, f: Node, p: nat)
    requires Ahead(n, f, p)
    ensures !Served(mode, n, f, p)
    ensures Heartbeat(mode, n, p).1.Send? ==> Refused(mode, n, f, p)
  {
    D.HeartbeatExact(mode, n, p);
    if Heartbeat(mode, n, p).1.Send? {
      D.HeartbeatCovers(mode, n, p, 0);
      ReceiveExact(f, Heartbeat(mode, n, p).1.args);
    }
    hide Heartbeat, ReceiveAppend, HintFits;
  }

  lemma NotSent(mode: Mode, n: Node, f: Node, p: nat)
    requires NodeOk(n) && NodeOk(f) && p < n.size && !Heartbeat(mode, n, p).1.Send?
    ensures Exchange(mode, n, f, p) == (Heartbeat(mode, n, p).0, f)
  {}

  lemma AheadStays(mode: Mode, n: Node, f: Node, p: nat)
    requires Ahead(n, f, p)
    ensures !Served(mode, n, f, p)
    ensures var (m, g) := Exchange(mode, n, f, p); Ahead(m, g, p)
  {
    AheadRefused(mode, n, f, p);
    var (m, g) := Exchange(mode, n, f, p);
    hide Heartbeat, Exchange, Refused, Facing, Served;
    if Heartbeat(mode, n, p).1.Send? {
      RefusalFalls(mode, n, f, p);
    } else {
      NotSent(mode, n, f, p);
      D.HeartbeatClamps(mode, n, p);
    }
    StaysFacing(n, m, f, g, p);
  }

  /** Facing each other does not depend on the next indices. */
  lemma StaysFacing(n: Node, m: Node, f: Node, g: Node, p: nat)
    requires Facing(n, f, p) && m == n.(next := m.next) && |m.next| == |n.next| && (g == f || Follows(f, g, n.term))
    ensures Facing(m, g, p)
  {}

  lemma {:induction false} NeverServed(mode: Mode, n: Node, f: Node, p: nat, k: nat)
    requires Ahead(n, f, p)
    ensures !ServedAfter(mode, n, f, p, k)
    decreases k
  {
    assert NodeOk(n) && NodeOk(f) && p < n.size && |n.next| == n.size;
    hide Exchange, Served, Ahead, NodeOk;
    AheadStays(mode, n, f, p);
    if k > 0 {
      var (m, g) := Exchange(mode, n, f, p);
      NeverServed(mode, m, g, p, k - 1);
    }
  }

  /**
    The leader gets to send what the follower takes, or a snapshot, exactly if it needs to send a snapshot
    from the start or has on disk all that the follower's own snapshot covers.
   */
  lemma ProbingExact(mode: Mode, n: Node, f: Node, p: nat)
    requires Facing(n, f, p) && InReach(mode, n, p)
    ensures (exists k :: ServedAfter(mode, n, f, p, k)) <==> n.next[p] <= n.snapIndex || f.snapIndex <= n.stable
  {
    assert NodeOk(n) && NodeOk(f) && p < n.size && |n.next| == n.size;
    hide ServedAfter, NodeOk;
    if n.next[p] <= n.snapIndex || f.snapIndex <= n.stable {
      var k := ProbingEnds(mode, n, f, p);
    } else {
      forall k: nat ensures !ServedAfter(mode, n, f, p, k) {
        NeverServed(mode, n, f, p, k);
      }
    }
  }

  /** In every careful run a leader faces each server of no later term like this, while its stable index is in its log. */
  lemma LeaderFaces(mode: Mode, size: nat, acts: seq<Action>, i: nat, j: nat)
    requires S.Careful(mode, size, acts) && i != j
    requires i < |Run(mode, Init(size), acts).nodes| && j < |Run(mode, Init(size), acts).nodes|
    ensures var n, f := Run(mode, Init(size), acts).nodes[i], Run(mode, Init(size), acts).nodes[j];
      n.role == Leader && f.term <= n.term && R.StableInLog(n) ==> Facing(n, f, j)
  {
    hide S.Careful, Run, ClusterInv;
    S.RunInv(mode, size, acts);
    var c := Run(mode, Init(size), acts);
    if c.nodes[i].role == Leader && c.nodes[j].term <= c.nodes[i].term && R.StableInLog(c.nodes[i]) {
      FacesIn(c, i, j);
    }
  }

  lemma FacesIn(c: Cluster, i: nat, j: nat)
    requires ClusterInv(c) && i < |c.nodes| && j < |c.nodes| && i != j
    requires c.nodes[i].role == Leader && c.nodes[j].term <= c.nodes[i].term && R.StableInLog(c.nodes[i])
    ensures Facing(c.nodes[i], c.nodes[j], j)
  {
    var n, f := c.nodes[i], c.nodes[j];
    assert MemberOk(c, i) && MemberOk(c, j);
    FullLog(n);
    FullLog(f);
    hide ClusterInv, LeaderOk;
    if f.snapIndex > 0 {
      var k := f.snapIndex;
      S.SameRemembers(c.h);
      S.CompleteAcross(c, c, j, i, k, Full(f)[k - 1]);
      hide S.CommittedOn;
    }
  }

  // ------------------------------------------------------------------ by a snapshot

  /** A cluster in which one server has become another one that is shaped as well. */
  lemma StillShaped(c: Cluster, d: Cluster, i: nat, n: Node)
    requires Shaped(c) && i < |c.nodes| && d.nodes == c.nodes[i := n]
    requires NodeOk(n) && n.id == i && n.size == |c.nodes|
    ensures Shaped(d) && forall j :: 0 <= j < |d.nodes| ==> ShapedNode(d, j)
  {
    forall j | 0 <= j < |d.nodes| ensures ShapedNode(d, j) {
      assert ShapedNode(c, j);
    }
  }

  /** What a leader's snapshot of everything up to index k makes of a follower's server. */
  ghost predicate Brought(n: Node, g: Node, k: int)
    requires |n.snapData| == n.snapIndex && 0 <= k <= |Full(n)|
  {
    && g.term == n.term && g.role == Follower && g.snapIndex == k && g.snapData == Full(n)[..k]
    && g.commit >= k && g.applied >= k && NodeOk(g)
  }

  lemma SnapshotBrings(n: Node, f: Node, k: int)
    requires NodeOk(n) && NodeOk(f) && |n.snapData| == n.snapIndex < k <= n.commit && f.term <= n.term && f.snapIndex < k
    ensures var m := TakeSnapshot(n, k);
      var g := InstallSnapshot(AsWritten, f, SnapshotRequest(m));
      && NodeOk(m) && m.snapIndex == k && Full(m) == Full(n) && m.term == n.term && m.role == n.role
      && k <= |Full(n)| && Brought(n, g, k) && g.id == f.id && g.size == f.size && m.id == n.id && m.size == n.size
  {
    TakeExact(n, k);
    R.TakeSteady(n, k);
    var m := TakeSnapshot(n, k);
    InstallFields(AsWritten, f, SnapshotRequest(m));
    R.InstallSteady(f, SnapshotRequest(m));
    hide TakeSnapshot, InstallSnapshot;
    assert m.snapData == (m.snapData + m.log)[..k];
  }

  /**
    The handlers as written: a leader takes a snapshot of everything up to k and sends it, the follower
    installs it, and its answer comes back. The follower then has the leader's log up to k, the leader
    knows that, and sends what lies behind k next.
   */
  lemma LaggingCatchesUp(c: Cluster, i: nat, j: nat, k: int)
    requires Shaped(c) && i < |c.nodes| && j < |c.nodes| && i != j && ShapedNode(c, i) && ShapedNode(c, j)
    requires c.nodes[i].role == Leader && c.nodes[j].term <= c.nodes[i].term
    requires |c.nodes[i].snapData| == c.nodes[i].snapIndex < k <= c.nodes[i].commit && c.nodes[j].snapIndex < k
    ensures var n := c.nodes[i];
      var s := SnapshotRequest(TakeSnapshot(n, k));
      var taken := Do(AsWritten, c, Compact(i, k));
      var sent := Do(AsWritten, taken, SendSnapshot(i));
      var installed := Do(AsWritten, sent, OnInstall(j, s));
      var d := Do(AsWritten, installed, OnInstallAnswer(j, s, n.term));
      && |d.nodes| == |c.nodes| && k <= |Full(n)| && Brought(n, d.nodes[j], k)
      && |d.nodes[i].next| == |d.nodes[i].matched| == |c.nodes|
      && d.nodes[i].next[j] == k + 1 && d.nodes[i].matched[j] == k && Full(d.nodes[i]) == Full(n)
  {
    var n, f := c.nodes[i], c.nodes[j];
    var m := TakeSnapshot(n, k);
    var s := SnapshotRequest(m);
    var g := InstallSnapshot(AsWritten, f, s);
    SnapshotBrings(n, f, k);
    assert s.leader == i && s.term == n.term && s.lastIndex == k;
    hide TakeSnapshot, InstallSnapshot, HandleSnapshot, SnapshotRequest, Do, NodeOk, Full;
    CompactAt(AsWritten, c, i, k);
    var taken := Do(AsWritten, c, Compact(i, k));
    StillShaped(c, taken, i, m);
    SendSnapshotAt(AsWritten, taken, i);
    var sent := Do(AsWritten, taken, SendSnapshot(i));
    StillShaped(taken, sent, i, m);
    InstallAt(AsWritten, sent, j, s);
    var installed := Do(AsWritten, sent, OnInstall(j, s));
    StillShaped(sent, installed, j, g);
    InstallAnswerAt(AsWritten, installed, j, s, n.term);
    SnapshotAnswerExact(m, j, s, n.term);
  }
}
