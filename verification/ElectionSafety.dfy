/**
  Election safety for the cluster, with the handlers as written or repaired: at most one node ever
  leads a term. It rests on the vote counter counting each peer once, which the table of pending
  calls gives (PendingCalls.ElectionCountsPeers), and on the guard against late replies.
 */
module ElectionSafety {
  import opened RaftTypes
  import opened RaftNode
  import opened Protocol
  import opened ProtocolSteps
  import opened Cluster

  /** The integer counter of an election is one plus the number of distinct peers that granted it. */
  ghost predicate CounterOk(c: Cluster, i: nat)
    requires i < |c.nodes|
  {
    var n := c.nodes[i];
    && n.id == i && n.size == |c.nodes|
    && (n.role == Candidate ==>
          && n.votes == 1 + |n.granters|
          && i !in n.granters && i !in n.awaiting && n.granters !! n.awaiting
          && (forall p <- n.granters :: p < |c.nodes| && Vote(n.term, p, i) in c.h.votes))
  }

  ghost predicate CountersOk(c: Cluster) {
    forall i :: 0 <= i < |c.nodes| ==> CounterOk(c, i)
  }

  ghost predicate VoteMessageOk(c: Cluster, m: Message) {
    match m
    case AskVote(v) => v.candidate < |c.nodes| && v.term <= c.nodes[v.candidate].term
    case VoteAnswer(from, v, r) =>
      && from < |c.nodes| && v.candidate < |c.nodes| && from != v.candidate
      && (r.granted ==> r.term == v.term && Vote(v.term, from, v.candidate) in c.h.votes)
    case _ => true
  }

  ghost predicate VoteMessagesOk(c: Cluster) {
    forall m <- c.net :: VoteMessageOk(c, m)
  }

  ghost predicate ElectionInv(c: Cluster) {
    VoteInv(View(c)) && CountersOk(c) && VoteMessagesOk(c)
  }

  // ------------------------------------------------------------------ steps

  /** Node i changes, terms do not fall, recorded votes stay: the other nodes and old messages are unaffected. */
  lemma OthersStay(c: Cluster, i: nat, n: Node, sent: set<Message>, h: History)
    requires ElectionInv(c) && i < |c.nodes|
    requires c.nodes[i].term <= n.term && c.h.votes <= h.votes
    requires CounterOk(With(c, i, n, sent, h), i)
    requires forall m <- sent :: VoteMessageOk(With(c, i, n, sent, h), m)
    ensures CountersOk(With(c, i, n, sent, h)) && VoteMessagesOk(With(c, i, n, sent, h))
  {
    var c' := With(c, i, n, sent, h);
    forall j | 0 <= j < |c'.nodes| ensures CounterOk(c', j) {
      assert CounterOk(c, j);
    }
    forall m <- c'.net ensures VoteMessageOk(c', m) {
      if m in c.net {
        assert VoteMessageOk(c, m);
      }
    }
  }

  lemma TimeoutElection(c: Cluster, i: nat)
    requires ElectionInv(c) && i < |c.nodes|
    ensures ElectionInv(DoTimeout(c, i))
  {
    var n := c.nodes[i];
    if n.role != Leader {
      var m := StartElection(n);
      var h := c.h.(votes := c.h.votes + {Vote(m.term, i, i)});
      assert CounterOk(c, i);
      ViewWith(c, i, m, {AskVote(VoteRequest(m))}, h);
      assert View(DoTimeout(c, i)) == Stand(View(c), i);
      StandVotes(View(c), i);
      OthersStay(c, i, m, {AskVote(VoteRequest(m))}, h);
    }
  }

  lemma CandidateVotesForItself(s: State, i: nat)
    requires VoteInv(s) && i < |s.nodes| && s.nodes[i].role == Candidate
    ensures s.nodes[i].vote == i
  {
    assert Vote(s.nodes[i].term, i, i) in s.h.votes;
  }

  /** What a vote request does, in the protocol's terms. */
  function VoteView(s: State, i: nat, a: VoteArgs, granted: bool): State
    requires i < |s.nodes|
  {
    var t := if a.term > s.nodes[i].term then Follow(s, i, a.term) else s;
    if granted then Grant(t, i, a.candidate) else t
  }

  lemma VoteRefines(c: Cluster, i: nat, a: VoteArgs)
    requires i < |c.nodes|
    ensures View(DoVote(c, i, a)) == VoteView(View(c), i, a, ReceiveVote(c.nodes[i], a).1.granted)
  {
    var (m, r) := ReceiveVote(c.nodes[i], a);
    var h := if r.granted then c.h.(votes := c.h.votes + {Vote(m.term, i, a.candidate)}) else c.h;
    ViewWith(c, i, m, {VoteAnswer(i, a, r)}, h);
  }

  /** A granted vote is one the protocol allows. */
  lemma GrantAllowed(c: Cluster, i: nat, a: VoteArgs)
    requires ElectionInv(c) && i < |c.nodes| && AskVote(a) in c.net && i != a.candidate
    requires ReceiveVote(c.nodes[i], a).1.granted
    ensures var s := VoteView(View(c), i, a, false);
      VoteInv(s) && CanGrant(s, i, a.candidate) && s.nodes[i].term == a.term
  {
    var s := View(c);
    assert VoteMessageOk(c, AskVote(a));
    var t := VoteView(s, i, a, false);
    if a.term > s.nodes[i].term {
      FollowVotes(s, i, a.term);
    }
    if t.nodes[i].role == Candidate {
      CandidateVotesForItself(t, i);
    }
  }

  lemma VoteVotes(c: Cluster, i: nat, a: VoteArgs)
    requires ElectionInv(c) && i < |c.nodes| && AskVote(a) in c.net && i != a.candidate
    ensures VoteInv(View(DoVote(c, i, a)))
  {
    VoteRefines(c, i, a);
    if ReceiveVote(c.nodes[i], a).1.granted {
      GrantAllowed(c, i, a);
      GrantVotes(VoteView(View(c), i, a, false), i, a.candidate);
    } else if a.term > c.nodes[i].term {
      FollowVotes(View(c), i, a.term);
    }
  }

  lemma VoteCounter(c: Cluster, i: nat, a: VoteArgs)
    requires CountersOk(c) && VoteMessagesOk(c) && i < |c.nodes| && AskVote(a) in c.net && i != a.candidate
    ensures CounterOk(DoVote(c, i, a), i)
    ensures VoteMessageOk(DoVote(c, i, a), VoteAnswer(i, a, ReceiveVote(c.nodes[i], a).1))
  {
    assert VoteMessageOk(c, AskVote(a));
    assert CounterOk(c, i);
  }

  lemma VoteElection(c: Cluster, i: nat, a: VoteArgs)
    requires ElectionInv(c) && i < |c.nodes| && AskVote(a) in c.net && i != a.candidate
    ensures ElectionInv(DoVote(c, i, a))
  {
    hide VoteInv, VoteMessageOk, CounterOk;
    VoteVotes(c, i, a);
    VoteCounter(c, i, a);
    var (m, r) := ReceiveVote(c.nodes[i], a);
    OthersStay(c, i, m, {VoteAnswer(i, a, r)}, DoVote(c, i, a).h);
  }

  /** The node turned leader on this answer. */
  predicate Wins(n: Node, from: nat, a: VoteArgs, r: VoteReply) {
    n.role != Leader && AnswerVote(n, from, a, r).role == Leader
  }

  function AnswerView(s: State, n: Node, from: nat, a: VoteArgs, r: VoteReply): State
    requires a.candidate < |s.nodes| && s.nodes[a.candidate].term == n.term
  {
    if r.term > n.term && (a.term != n.term || from in n.awaiting) then Follow(s, a.candidate, r.term)
    else if Wins(n, from, a, r) then Elect(s, a.candidate, n.granters + {from} + {a.candidate})
    else s
  }

  lemma AnswerRefines(c: Cluster, from: nat, a: VoteArgs, r: VoteReply)
    requires a.candidate < |c.nodes|
    ensures View(DoVoteAnswer(c, from, a, r)) == AnswerView(View(c), c.nodes[a.candidate], from, a, r)
  {
    var n := c.nodes[a.candidate];
    var m := AnswerVote(n, from, a, r);
    assert Wins(n, from, a, r) ==> m.granters == n.granters + {from};
    ViewWith(c, a.candidate, m, {}, DoVoteAnswer(c, from, a, r).h);
    assert View(c).nodes[a.candidate := Abs(n)] == View(c).nodes;
  }

  /** The candidate's own vote is recorded too. */
  lemma OwnVote(s: State, i: nat)
    requires VoteInv(s) && i < |s.nodes| && s.nodes[i].role == Candidate
    ensures Vote(s.nodes[i].term, i, i) in s.h.votes
  {}

  /** A counter that reached the majority stands for a majority of votes. */
  lemma CounterQuorum(c: Cluster, i: nat, from: nat, q: set<nat>)
    requires i < |c.nodes| && CounterOk(c, i) && c.nodes[i].role == Candidate
    requires from !in c.nodes[i].granters && from != i && from < |c.nodes|
    requires c.nodes[i].votes + 1 >= |c.nodes| / 2 + 1
    requires q == c.nodes[i].granters + {from} + {i}
    ensures IsQuorum(q, |c.nodes|)
  {
    var n := c.nodes[i];
    assert |n.granters + {from}| == |n.granters| + 1;
    assert |q| == n.votes + 1;
  }

  lemma WinAllowed(c: Cluster, from: nat, a: VoteArgs, r: VoteReply)
    requires ElectionInv(c) && VoteAnswer(from, a, r) in c.net && a.candidate < |c.nodes|
    requires Wins(c.nodes[a.candidate], from, a, r)
    ensures CanElect(View(c), a.candidate, c.nodes[a.candidate].granters + {from} + {a.candidate})
  {
    var i := a.candidate;
    var q := c.nodes[i].granters + {from} + {i};
    OwnVote(View(c), i);
    AnswerFacts(c, from, a, r);
    CounterQuorum(c, i, from, q);
  }

  lemma AnswerFacts(c: Cluster, from: nat, a: VoteArgs, r: VoteReply)
    requires CountersOk(c) && VoteMessagesOk(c) && VoteAnswer(from, a, r) in c.net && a.candidate < |c.nodes|
    ensures CounterOk(c, a.candidate) && from < |c.nodes| && from != a.candidate
    ensures r.granted ==> r.term == a.term && Vote(a.term, from, a.candidate) in c.h.votes
  {
    assert VoteMessageOk(c, VoteAnswer(from, a, r));
  }

  lemma AnswerVotes(c: Cluster, from: nat, a: VoteArgs, r: VoteReply)
    requires ElectionInv(c) && VoteAnswer(from, a, r) in c.net && a.candidate < |c.nodes|
    ensures VoteInv(View(DoVoteAnswer(c, from, a, r)))
  {
    var n := c.nodes[a.candidate];
    AnswerRefines(c, from, a, r);
    if Wins(n, from, a, r) {
      WinAllowed(c, from, a, r);
      ElectVotes(View(c), a.candidate, n.granters + {from} + {a.candidate});
    } else if r.term > n.term {
      FollowVotes(View(c), a.candidate, r.term);
    }
  }

  lemma AnswerCounter(c: Cluster, from: nat, a: VoteArgs, r: VoteReply)
    requires CountersOk(c) && VoteMessagesOk(c) && VoteAnswer(from, a, r) in c.net && a.candidate < |c.nodes|
    ensures CounterOk(DoVoteAnswer(c, from, a, r), a.candidate)
  {
    AnswerFacts(c, from, a, r);
  }

  lemma AnswerElection(c: Cluster, from: nat, a: VoteArgs, r: VoteReply)
    requires ElectionInv(c) && VoteAnswer(from, a, r) in c.net && a.candidate < |c.nodes|
    ensures ElectionInv(DoVoteAnswer(c, from, a, r))
  {
    hide VoteInv, VoteMessageOk, CounterOk;
    AnswerVotes(c, from, a, r);
    AnswerCounter(c, from, a, r);
    OthersStay(c, a.candidate, AnswerVote(c.nodes[a.candidate], from, a, r), {}, DoVoteAnswer(c, from, a, r).h);
  }

  /** A node that moves to another term as a follower, whatever happens to its log. */
  lemma FollowElection(c: Cluster, i: nat, n: Node, sent: set<Message>, h: History)
    requires ElectionInv(c) && i < |c.nodes|
    requires c.nodes[i].term <= n.term && n.role == Follower
    requires n.vote == (if n.term > c.nodes[i].term then -1 else c.nodes[i].vote)
    requires n.id == c.nodes[i].id && n.size == c.nodes[i].size
    requires h.votes == c.h.votes && h.reigns == c.h.reigns
    requires forall m <- sent :: !m.AskVote? && !m.VoteAnswer?
    ensures ElectionInv(With(c, i, n, sent, h))
  {
    FollowVotes(View(c), i, n.term);
    ViewWith(c, i, n, sent, h);
    StandingsVotes(Follow(View(c), i, n.term), View(With(c, i, n, sent, h)));
    assert CounterOk(c, i);
    OthersStay(c, i, n, sent, h);
  }

  /** A node that keeps its term, vote and role, whatever happens to its log. */
  lemma StayElection(c: Cluster, i: nat, n: Node, sent: set<Message>, h: History)
    requires ElectionInv(c) && i < |c.nodes|
    requires n.term == c.nodes[i].term && n.role == c.nodes[i].role && n.vote == c.nodes[i].vote
    requires n.id == c.nodes[i].id && n.size == c.nodes[i].size
    requires n.votes == c.nodes[i].votes && n.granters == c.nodes[i].granters && n.awaiting == c.nodes[i].awaiting
    requires h.votes == c.h.votes
    requires SameStandings(View(c), View(c).(h := h))
    requires forall m <- sent :: !m.AskVote? && !m.VoteAnswer?
    ensures ElectionInv(With(c, i, n, sent, h))
  {
    ViewWith(c, i, n, sent, h);
    StandingsVotes(View(c), View(With(c, i, n, sent, h)));
    assert CounterOk(c, i);
    OthersStay(c, i, n, sent, h);
  }

  lemma HeartbeatMovesNext(mode: Mode, n: Node, p: nat)
    requires IndexOk(n) && p < |n.next|
    ensures var m := Heartbeat(mode, n, p).0; m == n.(next := m.next) && |m.next| == |n.next|
  {
    hide BeatFrom;
    BeatFromStays(n, n.next[p] - 1);
    BeatFromStays(n.(next := n.next[p := n.stable + 1]), n.stable);
  }

  lemma BeatFromStays(n: Node, prev: int)
    requires IndexOk(n)
    ensures Holds(n, prev) && prev <= n.stable ==> BeatFrom(n, prev).0 == n
  {}

  lemma BeatElection(mode: Mode, c: Cluster, i: nat, p: nat)
    requires ElectionInv(c) && i < |c.nodes| && p < |c.nodes| && ShapedNode(c, i)
    ensures ElectionInv(DoBeat(mode, c, i, p))
  {
    hide Heartbeat;
    HeartbeatMovesNext(mode, c.nodes[i], p);
    var (m, b) := Heartbeat(mode, c.nodes[i], p);
    if !Stops(b) {
      StayElection(c, i, m, if b.Send? then {AskAppend(p, b.args)} else {}, c.h);
    }
  }

  lemma CommandElection(c: Cluster, i: nat, command: string)
    requires ElectionInv(c) && i < |c.nodes|
    ensures ElectionInv(DoCommand(c, i, command))
  {
    StayElection(c, i, StartCommand(c.nodes[i], command), {}, DoCommand(c, i, command).h);
  }

  lemma AppendElection(c: Cluster, i: nat, a: AppendArgs)
    requires ElectionInv(c) && i < |c.nodes| && ShapedNode(c, i)
    ensures ElectionInv(DoAppend(c, i, a))
  {
    match ReceiveAppend(c.nodes[i], a)
    case Exited =>
    case Answered(m, r) =>
      if a.term < c.nodes[i].term {
        StayElection(c, i, m, {AppendAnswer(i, a, r)}, c.h);
      } else {
        FollowElection(c, i, m, {AppendAnswer(i, a, r)}, c.h);
      }
    case Paused(m, ws) => FollowElection(c, i, m, {Gap(i, a, ws)}, c.h);
  }

  lemma ResumeElection(mode: Mode, c: Cluster, i: nat, a: AppendArgs, ws: seq<Write>, synced: bool)
    requires ElectionInv(c) && i < |c.nodes| && ShapedNode(c, i)
    ensures ElectionInv(DoResume(mode, c, i, a, ws, synced))
  {
    var (m, r) := ResumeAppend(mode, c.nodes[i], a, ws, synced);
    StayElection(c, i, m, {AppendAnswer(i, a, r)}, DoResume(mode, c, i, a, ws, synced).h);
  }

  lemma AppendAnswerElection(c: Cluster, from: nat, a: AppendArgs, r: AppendReply)
    requires ElectionInv(c) && a.leader < |c.nodes| && from < |c.nodes| && ShapedNode(c, a.leader)
    ensures ElectionInv(DoAppendAnswer(c, from, a, r))
  {
    var n := c.nodes[a.leader];
    var m := HandleAppend(n, from, a, r);
    if r.term > n.term {
      FollowElection(c, a.leader, m, {}, DoAppendAnswer(c, from, a, r).h);
    } else {
      StayElection(c, a.leader, m, {}, DoAppendAnswer(c, from, a, r).h);
    }
  }

  lemma InstallElection(mode: Mode, c: Cluster, i: nat, s: SnapshotArgs)
    requires ElectionInv(c) && i < |c.nodes| && ShapedNode(c, i)
    ensures ElectionInv(DoInstall(mode, c, i, s))
  {
    var m := InstallSnapshot(mode, c.nodes[i], s);
    if s.term < c.nodes[i].term {
      StayElection(c, i, m, {InstallAnswer(i, s, m.term)}, DoInstall(mode, c, i, s).h);
    } else {
      FollowElection(c, i, m, {InstallAnswer(i, s, m.term)}, DoInstall(mode, c, i, s).h);
    }
  }

  lemma InstallAnswerElection(c: Cluster, from: nat, s: SnapshotArgs, t: int)
    requires ElectionInv(c) && s.leader < |c.nodes| && from < |c.nodes| && ShapedNode(c, s.leader)
    ensures ElectionInv(DoInstallAnswer(c, from, s, t))
  {
    var n := c.nodes[s.leader];
    var m := HandleSnapshot(n, from, s, t);
    if n.role == Leader && n.term == s.term && t > n.term {
      FollowElection(c, s.leader, m, {}, c.h);
    } else {
      StayElection(c, s.leader, m, {}, c.h);
    }
  }

  lemma LocalElection(c: Cluster, i: nat, index: int)
    requires ElectionInv(c) && i < |c.nodes| && ShapedNode(c, i)
    ensures ElectionInv(DoSynced(c, i, index))
    ensures ElectionInv(DoCompact(c, i, index))
    ensures ElectionInv(DoApplyRound(c, i))
    ensures ElectionInv(DoSendSnapshot(c, i))
  {
    StayElection(c, i, LogStable(c.nodes[i], index), {}, c.h);
    StayElection(c, i, TakeSnapshot(c.nodes[i], index), {}, c.h);
    StayElection(c, i, ApplyCommitted(c.nodes[i]).0, {}, c.h);
    StayElection(c, i, c.nodes[i], {AskInstall(SnapshotRequest(c.nodes[i]))}, c.h);
  }

  lemma FailedElection(c: Cluster, i: nat, index: int)
    requires ElectionInv(c) && i < |c.nodes| && ShapedNode(c, i)
    ensures ElectionInv(DoFailed(c, i, index))
  {
    StayElection(c, i, LogFailed(c.nodes[i], index), {}, DoFailed(c, i, index).h);
  }

  /** Every step keeps the election invariant, in both modes. */
  lemma StepElection(mode: Mode, c: Cluster, a: Action)
    requires ElectionInv(c)
    ensures ElectionInv(Do(mode, c, a))
  {
    hide ElectionInv, DoTimeout, DoVote, DoVoteAnswer, DoBeat, DoAppend, DoResume, DoAppendAnswer, DoCommand;
    hide DoSynced, DoFailed, DoCompact, DoSendSnapshot, DoInstall, DoInstallAnswer, DoApplyRound, ShapedNode;
    if Shaped(c) {
      assert forall i :: 0 <= i < |c.nodes| ==> ShapedNode(c, i);
      match a
      case Timeout(i) => if i < |c.nodes| { TimeoutElection(c, i); }
      case OnVote(i, v) =>
        if i < |c.nodes| && AskVote(v) in c.net && i != v.candidate { VoteElection(c, i, v); }
      case OnVoteAnswer(from, v, r) =>
        if v.candidate < |c.nodes| && VoteAnswer(from, v, r) in c.net { AnswerElection(c, from, v, r); }
      case Beat(i, p) => if i < |c.nodes| && p < |c.nodes| { BeatElection(mode, c, i, p); }
      case OnAppend(i, e) => if i < |c.nodes| { AppendElection(c, i, e); }
      case OnResume(i, e, ws, synced) => if i < |c.nodes| { ResumeElection(mode, c, i, e, ws, synced); }
      case OnAppendAnswer(from, e, r) =>
        if e.leader < |c.nodes| && from < |c.nodes| { AppendAnswerElection(c, from, e, r); }
      case Command(i, command) => if i < |c.nodes| { CommandElection(c, i, command); }
      case Synced(i, index) => if i < |c.nodes| { LocalElection(c, i, index); }
      case Failed(i, index) => if i < |c.nodes| { FailedElection(c, i, index); }
      case Compact(i, index) => if i < |c.nodes| { LocalElection(c, i, index); }
      case SendSnapshot(i) => if i < |c.nodes| { LocalElection(c, i, 0); }
      case OnInstall(i, s) => if i < |c.nodes| { InstallElection(mode, c, i, s); }
      case OnInstallAnswer(from, s, t) =>
        if s.leader < |c.nodes| && from < |c.nodes| { InstallAnswerElection(c, from, s, t); }
      case ApplyRound(i) => if i < |c.nodes| { LocalElection(c, i, 0); }
    }
  }

  // ------------------------------------------------------------------ runs

  lemma InitElection(n: nat)
    ensures ElectionInv(Init(n))
  {}

  lemma {:induction false} RunElection(mode: Mode, n: nat, acts: seq<Action>)
    ensures ElectionInv(Run(mode, Init(n), acts))
    decreases |acts|
  {
    if acts == [] {
      InitElection(n);
    } else {
      RunElection(mode, n, acts[..|acts| - 1]);
      StepElection(mode, Run(mode, Init(n), acts[..|acts| - 1]), acts[|acts| - 1]);
    }
  }

  /** Who led a term stays on record. */
  ghost predicate ReignsPersist(h: History, h': History) {
    forall t <- h.reigns :: t in h'.reigns && h'.reigns[t].node == h.reigns[t].node
  }

  lemma AnswerReigns(c: Cluster, from: nat, a: VoteArgs, r: VoteReply)
    requires ElectionInv(c) && VoteAnswer(from, a, r) in c.net && a.candidate < |c.nodes|
    ensures ReignsPersist(c.h, DoVoteAnswer(c, from, a, r).h)
  {
    if Wins(c.nodes[a.candidate], from, a, r) {
      WinAllowed(c, from, a, r);
      NoReignYet(View(c), a.candidate, c.nodes[a.candidate].granters + {from} + {a.candidate});
    }
  }

  lemma StepReigns(mode: Mode, c: Cluster, a: Action)
    requires ElectionInv(c)
    ensures ReignsPersist(c.h, Do(mode, c, a).h)
  {
    hide ElectionInv, Heartbeat, InstallSnapshot, ResumeAppend, ReceiveAppend, HandleAppend;
    if a.OnVoteAnswer? && a.vote.candidate < |c.nodes| && VoteAnswer(a.from, a.vote, a.voteReply) in c.net {
      AnswerReigns(c, a.from, a.vote, a.voteReply);
    }
  }

  lemma {:induction false} RunReigns(mode: Mode, n: nat, acts: seq<Action>, k: nat)
    requires k <= |acts|
    ensures ReignsPersist(Run(mode, Init(n), acts[..k]).h, Run(mode, Init(n), acts).h)
    decreases |acts|
  {
    if k == |acts| {
      assert acts[..k] == acts;
    } else {
      var before := acts[..|acts| - 1];
      RunReigns(mode, n, before, k);
      assert before[..k] == acts[..k];
      RunElection(mode, n, before);
      StepReigns(mode, Run(mode, Init(n), before), acts[|acts| - 1]);
    }
  }

  predicate Leads(c: Cluster, i: nat, t: int) {
    i < |c.nodes| && c.nodes[i].role == Leader && c.nodes[i].term == t
  }

  lemma LeaderOnRecord(c: Cluster, i: nat, t: int)
    requires ElectionInv(c) && Leads(c, i, t)
    ensures t in c.h.reigns && c.h.reigns[t].node == i
  {
    assert View(c).nodes[i].role == Leader;
  }

  /**
    Election safety: in a cluster of any size, whatever messages are lost, repeated or reordered, a
    node that leads a term at some point of a run and a node that leads it at the end are the same.
   */
  lemma AtMostOneLeaderEver(mode: Mode, n: nat, acts: seq<Action>, k: nat, i: nat, j: nat, t: int)
    requires k <= |acts|
    requires Leads(Run(mode, Init(n), acts[..k]), i, t) && Leads(Run(mode, Init(n), acts), j, t)
    ensures i == j
  {
    RunElection(mode, n, acts[..k]);
    RunElection(mode, n, acts);
    RunReigns(mode, n, acts, k);
    LeaderOnRecord(Run(mode, Init(n), acts[..k]), i, t);
    LeaderOnRecord(Run(mode, Init(n), acts), j, t);
  }

  // ------------------------------------------------------------------ terms and votes of one node

  /** The term has not fallen, and within a term a vote once given has not changed. */
  predicate Later(n: Node, m: Node) {
    n.term <= m.term && (n.term == m.term ==> n.vote == -1 || m.vote == n.vote)
  }

  lemma VotesLater(n: Node, a: VoteArgs, peer: nat, r: VoteReply)
    ensures Later(n, StartElection(n)) && Later(n, ReceiveVote(n, a).0) && Later(n, AnswerVote(n, peer, a, r))
  {}

  lemma LeaderLater(mode: Mode, n: Node, p: nat, a: AppendArgs, r: AppendReply, s: SnapshotArgs, t: int)
    requires NodeOk(n) && p < n.size
    ensures Later(n, HandleAppend(n, p, a, r)) && Later(n, HandleSnapshot(n, p, s, t))
    ensures Later(n, Heartbeat(mode, n, p).0)
  {
    HeartbeatMovesNext(mode, n, p);
  }

  lemma FollowerLater(mode: Mode, n: Node, a: AppendArgs, ws: seq<Write>, synced: bool, s: SnapshotArgs)
    requires NodeOk(n)
    ensures !ReceiveAppend(n, a).Exited? ==> Later(n, ReceiveAppend(n, a).node)
    ensures Later(n, ResumeAppend(mode, n, a, ws, synced).0) && Later(n, InstallSnapshot(mode, n, s))
  {}

  lemma StepLater(mode: Mode, c: Cluster, a: Action, i: nat)
    requires i < |c.nodes|
    ensures i < |Do(mode, c, a).nodes| == |c.nodes| && Later(c.nodes[i], Do(mode, c, a).nodes[i])
  {
    hide StartElection, ReceiveVote, AnswerVote, HandleAppend, HandleSnapshot, Heartbeat;
    hide ReceiveAppend, ResumeAppend, InstallSnapshot, Later;
    SameLater(c.nodes[i]);
    if Shaped(c) {
      assert ShapedNode(c, i);
      match a
      case Timeout(j) => VotesLater(c.nodes[i], VoteRequest(c.nodes[i]), i, VoteReply(0, false));
      case OnVote(j, v) => VotesLater(c.nodes[i], v, i, VoteReply(0, false));
      case OnVoteAnswer(from, v, r) => VotesLater(c.nodes[i], v, from, r);
      case Beat(j, p) =>
        if p < |c.nodes| {
          LeaderLater(mode, c.nodes[i], p, AppendArgs(0, 0, 0, 0, [], 0), AppendReply(0, false, 0),
                      SnapshotRequest(c.nodes[i]), 0);
        }
      case OnAppend(j, e) => FollowerLater(mode, c.nodes[i], e, [], false, SnapshotRequest(c.nodes[i]));
      case OnResume(j, e, ws, synced) => FollowerLater(mode, c.nodes[i], e, ws, synced, SnapshotRequest(c.nodes[i]));
      case OnAppendAnswer(from, e, r) =>
        if from < |c.nodes| {
          LeaderLater(mode, c.nodes[i], from, e, r, SnapshotRequest(c.nodes[i]), 0);
        }
      case OnInstall(j, s) => FollowerLater(mode, c.nodes[i], AppendArgs(0, 0, 0, 0, [], 0), [], false, s);
      case OnInstallAnswer(from, s, t) =>
        if from < |c.nodes| {
          LeaderLater(mode, c.nodes[i], from, AppendArgs(0, 0, 0, 0, [], 0), AppendReply(0, false, 0), s, t);
        }
      case _ => OtherLater(mode, c, a, i);
    }
  }

  lemma SameLater(n: Node)
    ensures Later(n, n)
  {}

  lemma OtherLater(mode: Mode, c: Cluster, a: Action, i: nat)
    requires i < |c.nodes| && (a.Command? || a.Synced? || a.Failed? || a.Compact? || a.SendSnapshot? || a.ApplyRound?)
    ensures i < |Do(mode, c, a).nodes| == |c.nodes| && Later(c.nodes[i], Do(mode, c, a).nodes[i])
  {}

  /** Over any run no server's term falls, and within a term no server changes a vote it has given. */
  lemma {:induction false} TermsRise(mode: Mode, n: nat, acts: seq<Action>, k: nat, i: nat)
    requires k <= |acts| && i < n
    ensures i < |Run(mode, Init(n), acts[..k]).nodes| && i < |Run(mode, Init(n), acts).nodes|
    ensures Later(Run(mode, Init(n), acts[..k]).nodes[i], Run(mode, Init(n), acts).nodes[i])
    decreases |acts|
  {
    hide Do;
    if acts == [] {
      assert acts[..k] == acts;
    } else {
      var before := acts[..|acts| - 1];
      if k == |acts| {
        assert acts[..k] == acts;
        TermsRise(mode, n, before, 0, i);
      } else {
        TermsRise(mode, n, before, k, i);
        assert before[..k] == acts[..k];
      }
      StepLater(mode, Run(mode, Init(n), before), acts[|acts| - 1], i);
    }
  }
}
