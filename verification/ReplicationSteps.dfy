/** Every step of the repaired cluster is a run of the protocol's actions, and keeps ClusterInv. */
module ReplicationSteps {
  import opened RaftTypes
  import opened RaftNode
  import opened Protocol
  import opened Cluster
  import opened ReplicationInv
  import opened UnsentEntries
  import P = ProtocolSteps
  import E = ElectionSafety
  import R = RaftIndices

  // ------------------------------------------------------------------ elections

  /** A node that only changes in what the protocol does not see. */
  lemma SameView(c: Cluster, i: nat, n: Node)
    requires ClusterInv(c) && i < |c.nodes| && Abs(n) == Abs(c.nodes[i])
    ensures View(With(c, i, n, {}, c.h)) == View(c)
    ensures Grows(c, i, n, c.h)
  {
    ViewWith(c, i, n, {}, c.h);
    assert View(c).nodes[i := Abs(n)] == View(c).nodes;
  }

  lemma TimeoutRefines(c: Cluster, i: nat)
    requires i < |c.nodes| && c.nodes[i].id == i && c.nodes[i].role != Leader
    ensures View(DoTimeout(c, i)) == P.Stand(View(c), i)
  {
    var m := StartElection(c.nodes[i]);
    var h := c.h.(votes := c.h.votes + {Vote(m.term, i, i)});
    ViewWith(c, i, m, {AskVote(VoteRequest(m))}, h);
  }

  lemma TimeoutStep(c: Cluster, i: nat)
    requires ClusterInv(c) && i < |c.nodes|
    ensures ClusterInv(DoTimeout(c, i))
  {
    hide LogInv, E.ElectionInv;
    var n := c.nodes[i];
    if n.role != Leader {
      var m := StartElection(n);
      assert MemberOk(c, i);
      TimeoutRefines(c, i);
      InvOfView(c);
      P.StandLogs(View(c), i);
      E.TimeoutElection(c, i);
      TimeoutMember(c, i);
      QuietUnsent(c, i, m, {AskVote(VoteRequest(m))}, c.h.(votes := c.h.votes + {Vote(m.term, i, i)}));
      Close(c, i, m, {AskVote(VoteRequest(m))}, c.h.(votes := c.h.votes + {Vote(m.term, i, i)}));
    }
  }

  lemma TimeoutMember(c: Cluster, i: nat)
    requires i < |c.nodes| && MemberOk(c, i) && c.nodes[i].role != Leader
    ensures MemberOk(DoTimeout(c, i), i)
    ensures MessageOk(DoTimeout(c, i), AskVote(VoteRequest(StartElection(c.nodes[i]))))
  {
    FullLog(StartElection(c.nodes[i]));
  }

  lemma VoteMember(c: Cluster, i: nat, a: VoteArgs)
    requires i < |c.nodes| && MemberOk(c, i)
    requires c.nodes[i].role == Leader ==> c.nodes[i].term in c.h.reigns
    ensures MemberOk(DoVote(c, i, a), i)
  {
    var n, d := c.nodes[i], DoVote(c, i, a);
    var m := d.nodes[i];
    if m.role == Leader && m.term in d.h.reigns {
      forall p: nat | p < |m.matched| && p != i ensures Known(d.h, m, p) {
        assert Known(c.h, n, p);
      }
    }
  }

  /** The voter compares what the protocol compares. */
  lemma VoteUpToDate(c: Cluster, i: nat, a: VoteArgs)
    requires ClusterInv(c) && i < |c.nodes| && AskVote(a) in c.net && i != a.candidate
    requires ReceiveVote(c.nodes[i], a).1.granted
    ensures P.MayVote(E.VoteView(View(c), i, a, false), i, a.candidate, a.lastTerm, a.lastIndex)
  {
    hide LogInv;
    E.GrantAllowed(c, i, a);
    assert MessageOk(c, AskVote(a));
    assert MemberOk(c, i);
    FullLog(c.nodes[i]);
  }

  lemma VoteLogs(c: Cluster, i: nat, a: VoteArgs)
    requires ClusterInv(c) && i < |c.nodes| && AskVote(a) in c.net && i != a.candidate
    ensures LogInv(View(DoVote(c, i, a)))
  {
    hide LogInv, E.ElectionInv;
    InvOfView(c);
    E.VoteRefines(c, i, a);
    var s := View(c);
    if a.term > c.nodes[i].term {
      P.FollowVotes(s, i, a.term);
      P.FollowLogs(s, i, a.term);
    }
    if ReceiveVote(c.nodes[i], a).1.granted {
      VoteUpToDate(c, i, a);
      P.GrantLogs(E.VoteView(s, i, a, false), i, a.candidate, a.lastTerm, a.lastIndex);
    }
  }

  lemma VoteStep(c: Cluster, i: nat, a: VoteArgs)
    requires ClusterInv(c) && i < |c.nodes| && AskVote(a) in c.net && i != a.candidate
    ensures ClusterInv(DoVote(c, i, a))
  {
    hide LogInv, E.ElectionInv;
    var (m, r) := ReceiveVote(c.nodes[i], a);
    VoteLogs(c, i, a);
    E.VoteElection(c, i, a);
    assert MemberOk(c, i);
    LeaderTerm(c, i);
    VoteMember(c, i, a);
    QuietUnsent(c, i, m, {VoteAnswer(i, a, r)}, DoVote(c, i, a).h);
    Close(c, i, m, {VoteAnswer(i, a, r)}, DoVote(c, i, a).h);
  }

  lemma LeaderTerm(c: Cluster, i: nat)
    requires ClusterInv(c) && i < |c.nodes|
    ensures c.nodes[i].role == Leader ==> c.nodes[i].term in c.h.reigns && c.h.reigns[c.nodes[i].term].node == i
    ensures c.nodes[i].role == Leader ==> Full(c.nodes[i]) == c.h.reigns[c.nodes[i].term].log
  {
    if c.nodes[i].role == Leader {
      LeadersReign(c, i);
      assert LogOk(c.h.reigns, View(c).nodes[i]);
    }
  }

  // ------------------------------------------------------------------ winning an election

  lemma AnswerLogs(c: Cluster, from: nat, a: VoteArgs, r: VoteReply)
    requires ClusterInv(c) && VoteAnswer(from, a, r) in c.net && a.candidate < |c.nodes|
    ensures LogInv(View(DoVoteAnswer(c, from, a, r)))
  {
    hide LogInv;
    InvOfView(c);
    E.AnswerRefines(c, from, a, r);
    var n := c.nodes[a.candidate];
    if E.Wins(n, from, a, r) {
      E.WinAllowed(c, from, a, r);
      P.ElectLogs(View(c), a.candidate, n.granters + {from} + {a.candidate});
    } else if r.term > n.term {
      P.FollowLogs(View(c), a.candidate, r.term);
    }
  }

  lemma NewReignGrows(c: Cluster, from: nat, a: VoteArgs, r: VoteReply)
    requires a.candidate < |c.nodes|
    requires E.Wins(c.nodes[a.candidate], from, a, r) ==> c.nodes[a.candidate].term !in c.h.reigns
    ensures Grows(c, a.candidate, AnswerVote(c.nodes[a.candidate], from, a, r), DoVoteAnswer(c, from, a, r).h)
  {
    var n := c.nodes[a.candidate];
    if E.Wins(n, from, a, r) {
      assert Standing(View(c), a.candidate, n.term);
    }
  }

  lemma AnswerGrows(c: Cluster, from: nat, a: VoteArgs, r: VoteReply)
    requires ClusterInv(c) && VoteAnswer(from, a, r) in c.net && a.candidate < |c.nodes|
    ensures Grows(c, a.candidate, AnswerVote(c.nodes[a.candidate], from, a, r), DoVoteAnswer(c, from, a, r).h)
    ensures ReignsNumbered(DoVoteAnswer(c, from, a, r).h.reigns)
  {
    hide LogInv, Grows, VoteInv;
    var n := c.nodes[a.candidate];
    assert MemberOk(c, a.candidate);
    FullLog(n);
    if E.Wins(n, from, a, r) {
      E.WinAllowed(c, from, a, r);
      P.NoReignYet(View(c), a.candidate, n.granters + {from} + {a.candidate});
    }
    NewReignGrows(c, from, a, r);
  }

  lemma AnswerMember(c: Cluster, from: nat, a: VoteArgs, r: VoteReply)
    requires a.candidate < |c.nodes| && MemberOk(c, a.candidate)
    requires c.nodes[a.candidate].role == Leader ==> c.nodes[a.candidate].term in c.h.reigns
    ensures MemberOk(DoVoteAnswer(c, from, a, r), a.candidate)
  {
    R.AnswerVoteSteady(c.nodes[a.candidate], from, a, r);
    AnswerLeader(c, from, a, r);
  }

  lemma AnswerLeader(c: Cluster, from: nat, a: VoteArgs, r: VoteReply)
    requires a.candidate < |c.nodes| && MemberOk(c, a.candidate)
    requires c.nodes[a.candidate].role == Leader ==> c.nodes[a.candidate].term in c.h.reigns
    ensures LeaderOk(DoVoteAnswer(c, from, a, r), a.candidate)
  {
    var n := c.nodes[a.candidate];
    var m := AnswerVote(n, from, a, r);
    var h := DoVoteAnswer(c, from, a, r).h;
    if E.Wins(n, from, a, r) {
      forall p: nat | p < |m.matched| && p != a.candidate
        ensures Known(h, m, p)
      {
        assert m.matched[p] == 0;
      }
    } else if m.role == Leader {
      assert m.matched == n.matched && m.term == n.term && h == c.h;
      forall p: nat | p < |m.matched| && p != a.candidate ensures Known(h, m, p) {
        assert Known(c.h, n, p);
      }
    }
  }

  /** Nothing is on record for a term that has had no leader. */
  lemma NothingYet(c: Cluster, t: int)
    requires ClusterInv(c) && t !in c.h.reigns
    ensures forall a <- c.h.acks :: a.term != t
    ensures forall m <- c.net :: IsRequest(m) ==> m.append.term != t
  {
    forall a <- c.h.acks ensures a.term != t {
      assert AckOk(View(c), a);
    }
    forall m <- c.net | IsRequest(m) ensures m.append.term != t {
      assert MessageOk(c, m);
    }
  }

  lemma AnswerUnsent(c: Cluster, from: nat, a: VoteArgs, r: VoteReply)
    requires ClusterInv(c) && VoteAnswer(from, a, r) in c.net && a.candidate < |c.nodes|
    ensures UnsentOk(DoVoteAnswer(c, from, a, r))
  {
    hide LogInv, UnsentOk;
    var n := c.nodes[a.candidate];
    var m := AnswerVote(n, from, a, r);
    var h := DoVoteAnswer(c, from, a, r).h;
    assert Full(m) == Full(n) && m.stable == n.stable;
    if E.Wins(n, from, a, r) {
      E.WinAllowed(c, from, a, r);
      P.NoReignYet(View(c), a.candidate, n.granters + {from} + {a.candidate});
      NothingYet(c, n.term);
      WinUnsent(c, a.candidate, m, h, n.term, m.granters + {a.candidate});
    } else {
      QuietUnsent(c, a.candidate, m, {}, h);
    }
  }

  lemma AnswerStep(c: Cluster, from: nat, a: VoteArgs, r: VoteReply)
    requires ClusterInv(c) && VoteAnswer(from, a, r) in c.net && a.candidate < |c.nodes|
    ensures ClusterInv(DoVoteAnswer(c, from, a, r))
  {
    hide LogInv, E.ElectionInv, Grows;
    AnswerLogs(c, from, a, r);
    E.AnswerElection(c, from, a, r);
    assert MemberOk(c, a.candidate);
    LeaderTerm(c, a.candidate);
    AnswerMember(c, from, a, r);
    AnswerGrows(c, from, a, r);
    AnswerUnsent(c, from, a, r);
    Close(c, a.candidate, AnswerVote(c.nodes[a.candidate], from, a, r), {}, DoVoteAnswer(c, from, a, r).h);
  }

  // ------------------------------------------------------------------ the leader's requests

  /** What a leader has committed is settled, and so is every prefix of it. */
  lemma CommittedSettled(c: Cluster, i: nat, k: int)
    requires ClusterInv(c) && i < |c.nodes| && 0 <= k <= c.nodes[i].commit
    ensures k <= |Full(c.nodes[i])| && Settled(c.h, Full(c.nodes[i])[..k], c.nodes[i].term)
  {
    var n := View(c).nodes[i];
    assert 0 <= n.commit <= |n.log| && Settled(c.h, n.log[..n.commit], n.term);
    assert n.log[..k] <= n.log[..n.commit];
    SettledPrefix(c.h, n.log[..k], n.log[..n.commit], n.term);
  }

  lemma BeatRequest(n: Node, prev: int)
    requires NodeOk(n) && Backed(n) && Holds(n, prev) && prev <= n.stable && BeatFrom(n, prev).1.Send?
    ensures var a := BeatFrom(n, prev).1.args;
      && a.term == n.term && a.leader == n.id && a.leaderCommit == n.commit
      && a.prevIndex == prev && Reach(a) == n.stable <= |Full(n)| && n.commit <= prev + |a.entries|
      && a.entries == Full(n)[prev..prev + |a.entries|]
      && a.prevTerm == TermOf(Full(n), prev)
  {
    FullLog(n);
  }

  lemma HeartbeatRequest(mode: Mode, n: Node, p: nat)
    requires NodeOk(n) && Backed(n) && p < |n.next| && Heartbeat(mode, n, p).1.Send?
    ensures var a := Heartbeat(mode, n, p).1.args;
      && n.role == Leader && a.term == n.term && a.leader == n.id && a.leaderCommit == n.commit
      && 0 <= a.prevIndex && Reach(a) == n.stable <= |Full(n)| && n.commit <= a.prevIndex + |a.entries|
      && a.entries == Full(n)[a.prevIndex..a.prevIndex + |a.entries|]
      && a.prevTerm == TermOf(Full(n), a.prevIndex)
  {
    hide BeatFrom, TermOf;
    if n.next[p] - 1 > n.stable {
      var m := n.(next := n.next[p := n.stable + 1]);
      BeatRequest(m, n.stable);
    } else {
      BeatRequest(n, n.next[p] - 1);
    }
  }

  lemma BeatRequestOk(mode: Mode, c: Cluster, i: nat, p: nat)
    requires ClusterInv(c) && i < |c.nodes| && p < |c.nodes| && ShapedNode(c, i)
    requires Heartbeat(mode, c.nodes[i], p).1.Send?
    ensures RequestOk(c.h, Heartbeat(mode, c.nodes[i], p).1.args)
    ensures NewRequestsFree(c, {AskAppend(p, Heartbeat(mode, c.nodes[i], p).1.args)})
  {
    hide LogInv, Heartbeat, Free;
    var n := c.nodes[i];
    assert MemberOk(c, i);
    HeartbeatRequest(mode, n, p);
    StablePrefixFree(c, i, n.stable);
    LeaderTerm(c, i);
    CommittedSettled(c, i, n.commit);
  }

  lemma QuietMember(c: Cluster, i: nat, n: Node, sent: set<Message>)
    requires i < |c.nodes| && MemberOk(c, i)
    requires NodeOk(n) && Backed(n) && n.id == i && n.size == |c.nodes|
    requires n.role == Leader ==> c.nodes[i].role == Leader && n.term == c.nodes[i].term && n.term in c.h.reigns
    requires n.role == Leader ==> n.commit >= c.nodes[i].commit && n.matched == c.nodes[i].matched
    ensures MemberOk(With(c, i, n, sent, c.h), i)
  {
    if n.role == Leader {
      forall p: nat | p < |n.matched| && p != i ensures Known(c.h, n, p) {
        assert Known(c.h, c.nodes[i], p);
      }
    }
  }

  lemma BeatStep(mode: Mode, c: Cluster, i: nat, p: nat)
    requires ClusterInv(c) && i < |c.nodes| && p < |c.nodes| && ShapedNode(c, i)
    ensures ClusterInv(DoBeat(mode, c, i, p))
  {
    hide LogInv, E.ElectionInv, Heartbeat, UnsentOk;
    E.BeatElection(mode, c, i, p);
    E.HeartbeatMovesNext(mode, c.nodes[i], p);
    var (m, b) := Heartbeat(mode, c.nodes[i], p);
    if !Stops(b) {
      var sent := if b.Send? then {AskAppend(p, b.args)} else {};
      SameView(c, i, m);
      assert MemberOk(c, i);
      LeaderTerm(c, i);
      QuietMember(c, i, m, sent);
      if b.Send? {
        BeatRequestOk(mode, c, i, p);
      }
      QuietUnsent(c, i, m, sent, c.h);
      assert View(With(c, i, m, sent, c.h)) == View(With(c, i, m, {}, c.h));
      Close(c, i, m, sent, c.h);
    }
  }

  lemma CommandLogs(c: Cluster, i: nat, command: string)
    requires ClusterInv(c) && i < |c.nodes| && c.nodes[i].role == Leader
    ensures LogInv(View(DoCommand(c, i, command)))
    ensures Extends(c.h.reigns, DoCommand(c, i, command).h.reigns)
    ensures ReignsNumbered(DoCommand(c, i, command).h.reigns)
  {
    hide LogInv, E.ElectionInv;
    InvOfView(c);
    var n := c.nodes[i];
    var e := Entry(command, n.term, LastIndex(n) + 1);
    LeaderTerm(c, i);
    assert MemberOk(c, i);
    FullLog(n);
    assert Full(StartCommand(n, command)) == Full(n) + [e];
    ViewWith(c, i, StartCommand(n, command), {}, DoCommand(c, i, command).h);
    assert View(DoCommand(c, i, command)) == P.Append(View(c), i, e);
    P.AppendLogs(View(c), i, e);
    P.AppendExtends(View(c), i, e);
  }

  lemma CommandMember(c: Cluster, i: nat, command: string)
    requires ClusterInv(c) && i < |c.nodes| && c.nodes[i].role == Leader
    requires Extends(c.h.reigns, DoCommand(c, i, command).h.reigns)
    ensures MemberOk(DoCommand(c, i, command), i)
  {
    hide LogInv, E.ElectionInv;
    var n := c.nodes[i];
    var m := StartCommand(n, command);
    var h := DoCommand(c, i, command).h;
    assert MemberOk(c, i);
    LeaderTerm(c, i);
    forall p: nat | p < |m.matched| && p != i ensures Known(h, m, p) {
      assert Known(c.h, n, p);
      if Acked(c.h, n.term, p, n.matched[p]) {
        AckedStays(c.h, h, n.term, p, n.matched[p]);
      }
    }
  }

  lemma CommandUnsent(c: Cluster, i: nat, command: string)
    requires ClusterInv(c) && i < |c.nodes| && c.nodes[i].role == Leader
    ensures UnsentOk(DoCommand(c, i, command))
  {
    hide LogInv, E.ElectionInv, UnsentOk;
    var n := c.nodes[i];
    var m := StartCommand(n, command);
    var e := Entry(command, n.term, LastIndex(n) + 1);
    LeaderTerm(c, i);
    InvOfView(c);
    AllRooted(View(c));
    assert Full(m) == Full(n) + [e];
    forall j | 0 <= j < |c.nodes| ensures Rooted(c.h.reigns, Full(c.nodes[j])) {
      assert View(c).nodes[j].log == Full(c.nodes[j]);
    }
    ReachesWithin(c);
    AppendUnsent(c, i, m, DoCommand(c, i, command).h, e);
  }

  lemma AllRooted(s: State)
    requires LogsOk(s)
    ensures forall j :: 0 <= j < |s.nodes| ==> Rooted(s.h.reigns, s.nodes[j].log)
  {
    forall j | 0 <= j < |s.nodes| ensures Rooted(s.h.reigns, s.nodes[j].log) {
      assert LogOk(s.h.reigns, s.nodes[j]);
    }
  }

  lemma ReachesWithin(c: Cluster)
    requires ClusterInv(c)
    ensures WithinReigns(c)
  {
    forall a <- c.h.acks ensures a.len <= |c.h.reigns[a.term].log| {
      assert AckOk(View(c), a);
    }
    forall m <- c.net | IsRequest(m) ensures Reach(m.append) <= |c.h.reigns[m.append.term].log| {
      assert MessageOk(c, m);
    }
  }

  lemma CommandGrows(c: Cluster, i: nat, command: string)
    requires ClusterInv(c) && i < |c.nodes| && c.nodes[i].role == Leader
    requires Extends(c.h.reigns, DoCommand(c, i, command).h.reigns)
    ensures Grows(c, i, StartCommand(c.nodes[i], command), DoCommand(c, i, command).h)
  {
    hide LogInv, UnsentOk;
    LeaderTerm(c, i);
  }

  lemma CommandStep(c: Cluster, i: nat, command: string)
    requires ClusterInv(c) && i < |c.nodes|
    ensures ClusterInv(DoCommand(c, i, command))
  {
    hide LogInv, E.ElectionInv, UnsentOk, Grows;
    var n := c.nodes[i];
    if n.role == Leader {
      CommandLogs(c, i, command);
      CommandMember(c, i, command);
      E.CommandElection(c, i, command);
      CommandUnsent(c, i, command);
      CommandGrows(c, i, command);
      Close(c, i, StartCommand(n, command), {}, DoCommand(c, i, command).h);
    } else {
      assert DoCommand(c, i, command) == c;
    }
  }
}
