/**
  Failed log writes of a leader. Taking back an entry and putting another in its place breaks log
  matching exactly when another log, a request in flight or an acknowledgement has the entry. Two runs
  show that this can happen when a write fails below an index whose write has succeeded, and what it leads
  to; in one of them the entry is in a request only.
 */
module FailedWrites {
  import opened RaftTypes
  import opened RaftNode
  import opened Protocol
  import opened Cluster
  import opened ClusterSteps
  import opened ReplicationInv
  import opened ReplicationSteps
  import opened LogMerge
  import opened UnsentEntries
  import F = ReplicationFailures
  import S = RaftSafety
  import E = ElectionSafety

  // ------------------------------------------------------------------ one failure

  /** Log f matches log g with position p refilled by another entry of the term t, which g's leader owned from p on. */
  lemma RefillMatches(f: seq<Entry>, g: seq<Entry>, p: nat, e: Entry)
    requires Matching(f, g) && p < |g| && e != g[p]
    requires p < |f| && f[p].term == e.term ==> f[p] == g[p]
    ensures Matching(f, g[..p] + [e]) <==> g[p].term != e.term || !Has(f, p, g[p])
  {
    var g' := g[..p] + [e];
    forall k | 0 <= k < |f| && k < p && f[k].term == g'[k].term ensures f[..k + 1] == g'[..k + 1] {
      assert f[..k + 1] == g[..k + 1];
    }
    if Has(f, p, g[p]) && g[p].term == e.term {
      assert f[..p + 1][p] != g'[..p + 1][p];
    }
  }

  /** The log that a request of term t extends to, or an acknowledgement of it is about, up to index k. */
  ghost predicate StretchMatches(c: Cluster, t: int, k: int, g: seq<Entry>) {
    t in c.h.reigns && 0 <= k <= |c.h.reigns[t].log| ==> Matching(c.h.reigns[t].log[..k], g)
  }

  /** Log g of server i matches all other logs, and those that requests and acknowledgements are about. */
  ghost predicate AllMatch(c: Cluster, i: nat, g: seq<Entry>) {
    && (forall j :: 0 <= j < |c.nodes| && j != i ==> Matching(Full(c.nodes[j]), g))
    && (forall m <- c.net :: IsRequest(m) ==> StretchMatches(c, m.append.term, Reach(m.append), g))
    && (forall a <- c.h.acks :: StretchMatches(c, a.term, a.len, g))
  }

  /** Any log that the records bear out, compared with that of a leader. */
  lemma OwnEntries(c: Cluster, i: nat, f: seq<Entry>, p: nat)
    requires ClusterInv(c) && i < |c.nodes| && c.nodes[i].role == Leader && p < |Full(c.nodes[i])|
    requires Rooted(c.h.reigns, f)
    ensures var g := Full(c.nodes[i]);
      Matching(f, g) && (p < |f| && f[p].term == c.nodes[i].term ==> f[p] == g[p])
  {
    hide E.ElectionInv, UnsentOk, MembersOk, MessagesOk;
    LeaderTerm(c, i);
    InvOfView(c);
    var g := Full(c.nodes[i]);
    assert LogOk(c.h.reigns, View(c).nodes[i]);
    RootedMatching(c.h.reigns, f, g);
    if p < |f| && f[p].term == c.nodes[i].term {
      assert RootedAt(c.h.reigns, f, p);
      assert f[..p + 1] == g[..p + 1];
    }
  }

  /** The leader's log with another command of its term at position p. */
  function Refilled(n: Node, p: nat, x: string): seq<Entry>
    requires p < |Full(n)|
  {
    Full(n)[..p] + [Entry(x, n.term, p + 1)]
  }

  lemma RefillOne(c: Cluster, i: nat, f: seq<Entry>, p: nat, x: string)
    requires ClusterInv(c) && i < |c.nodes| && c.nodes[i].role == Leader && p < |Full(c.nodes[i])|
    requires Rooted(c.h.reigns, f) && x != Full(c.nodes[i])[p].command
    ensures var n := c.nodes[i];
      Matching(f, Refilled(n, p, x)) <==> Full(n)[p].term != n.term || !Has(f, p, Full(n)[p])
  {
    hide ClusterInv, Matching, Rooted;
    OwnEntries(c, i, f, p);
    RefillMatches(f, Full(c.nodes[i]), p, Entry(x, c.nodes[i].term, p + 1));
  }

  /** The same for what a request or an acknowledgement is about. */
  lemma RefillStretch(c: Cluster, i: nat, t: int, k: int, p: nat, x: string)
    requires ClusterInv(c) && i < |c.nodes| && c.nodes[i].role == Leader && p < |Full(c.nodes[i])|
    requires t in c.h.reigns && k <= |c.h.reigns[t].log| && x != Full(c.nodes[i])[p].command
    ensures var n := c.nodes[i];
      StretchMatches(c, t, k, Refilled(n, p, x))
      <==> Full(n)[p].term != n.term || (Has(c.h.reigns[t].log, p, Full(n)[p]) ==> k <= p)
  {
    var l := c.h.reigns[t].log;
    if k >= 0 {
      ReignRooted(c, t);
      hide ClusterInv, Matching, Rooted;
      RootedPrefix(c.h.reigns, l, k);
      RefillOne(c, i, l[..k], p, x);
    }
  }

  lemma ReignRooted(c: Cluster, t: int)
    requires ClusterInv(c) && t in c.h.reigns
    ensures Rooted(c.h.reigns, c.h.reigns[t].log)
  {
    InvOfView(c);
    assert LineOk(c.h.reigns, t);
  }

  lemma RefillLog(n: Node, k: int, x: string)
    requires NodeOk(n) && Backed(n) && n.role == Leader && F.Takes(n, k)
    ensures 0 < k <= |Full(n)| && Full(StartCommand(LogFailed(n, k), x)) == Refilled(n, k - 1, x)
  {
    FullLog(n);
    F.FailedShape(n, k);
    var m := LogFailed(n, k);
    FullLog(m);
    assert Full(StartCommand(m, x)) == Full(m) + [Entry(x, n.term, k)];
  }

  lemma AllMatchExact(c: Cluster, i: nat, p: nat, x: string)
    requires ClusterInv(c) && i < |c.nodes| && c.nodes[i].role == Leader && p < |Full(c.nodes[i])|
    requires x != Full(c.nodes[i])[p].command
    ensures AllMatch(c, i, Refilled(c.nodes[i], p, x))
            <==> Full(c.nodes[i])[p].term != c.nodes[i].term || F.Recallable(c, i, p)
  {
    var n, e, g := c.nodes[i], Full(c.nodes[i])[p], Refilled(c.nodes[i], p, x);
    ReachesWithin(c);
    hide ClusterInv, Refilled, StretchMatches, Matching;
    forall j | 0 <= j < |c.nodes| && j != i
      ensures Matching(Full(c.nodes[j]), g) <==> e.term != n.term || !Has(View(c).nodes[j].log, p, e)
    {
      F.RootedNode(c, j);
      RefillOne(c, i, Full(c.nodes[j]), p, x);
    }
    forall m <- c.net | IsRequest(m)
      ensures m.append.term in c.h.reigns
      ensures StretchMatches(c, m.append.term, Reach(m.append), g)
        <==> e.term != n.term || (Has(c.h.reigns[m.append.term].log, p, e) ==> Reach(m.append) <= p)
    {
      RequestReign(c, m);
      RefillStretch(c, i, m.append.term, Reach(m.append), p, x);
    }
    forall a <- c.h.acks
      ensures a.term in c.h.reigns
      ensures StretchMatches(c, a.term, a.len, g)
        <==> e.term != n.term || (Has(c.h.reigns[a.term].log, p, e) ==> a.len <= p)
    {
      AckReign(c, a);
      RefillStretch(c, i, a.term, a.len, p, x);
    }
  }

  lemma RequestReign(c: Cluster, m: Message)
    requires ClusterInv(c) && m in c.net && IsRequest(m)
    ensures m.append.term in c.h.reigns
  {
    assert MessageOk(c, m);
  }

  lemma AckReign(c: Cluster, a: Ack)
    requires ClusterInv(c) && a in c.h.acks
    ensures a.term in c.h.reigns
  {
    F.AckWithin(c, a);
  }

  /**
    A leader's write of index k fails, and it appends another command there. Its log still matches all other
    logs, and those that requests and acknowledgements are about, exactly if none of these has the entry
    taken back, or that was not of its own term. If k lies above the stable index none has.
   */
  lemma RefillExact(c: Cluster, i: nat, k: int, x: string)
    requires ClusterInv(c) && i < |c.nodes| && ShapedNode(c, i) && c.nodes[i].role == Leader && F.Takes(c.nodes[i], k)
    ensures 0 < k <= |Full(c.nodes[i])|
    ensures var n, e := c.nodes[i], Full(c.nodes[i])[k - 1];
      x != e.command ==>
        (AllMatch(c, i, Full(StartCommand(LogFailed(n, k), x))) <==> e.term != n.term || F.Recallable(c, i, k - 1))
    ensures c.nodes[i].stable < k ==> F.Recallable(c, i, k - 1)
  {
    hide LogInv, E.ElectionInv, UnsentOk, MessagesOk;
    Member(c, i);
    RefillLog(c.nodes[i], k, x);
    var p := k - 1;
    assert c.nodes[i].stable < k ==> Unsent(c, i, p);
    hide ClusterInv, AllMatch, F.Recallable, Unsent;
    if x != Full(c.nodes[i])[p].command {
      AllMatchExact(c, i, p, x);
    }
    if c.nodes[i].stable < k {
      F.UnsentRecallable(c, i, p);
    }
  }

  // ------------------------------------------------------------------ a run

  /** The leader of term 1 among three servers: its log, indices, and what it knows of server 1. */
  datatype Lead = Lead(log: seq<Entry>, commit: int, stable: int, next: int, matched: int)

  ghost predicate LeadsWith(n: Node, l: Lead) {
    && n.id == 0 && n.size == 3 && n.term == 1 && n.role == Leader && |n.next| == 3 && |n.matched| == 3
    && n.snapIndex == 0 && n.snapTerm == 0 && n.snapData == [] && n.applied == 0
    && n.log == l.log && n.commit == l.commit && n.stable == l.stable
    && n.next[1] == l.next && n.matched[1] == l.matched && n.matched[2] == 0
    && NodeOk(n)
  }

  ghost predicate Follows(n: Node, log: seq<Entry>, commit: int) {
    && n.id == 1 && n.size == 3 && n.term == 1 && n.role == Follower && |n.next| == 3 && |n.matched| == 3
    && n.snapIndex == 0 && n.snapTerm == 0 && n.snapData == [] && n.applied == 0
    && n.log == log && n.commit == commit && NodeOk(n)
  }

  /** Where the run has come to. */
  ghost predicate At(mode: Mode, acts: seq<Action>, l: Lead, log: seq<Entry>, commit: int) {
    var c := Run(mode, Init(3), acts);
    && Shaped(c) && |c.nodes| == 3 && LeadsWith(c.nodes[0], l) && Follows(c.nodes[1], log, commit)
    && Full(c.nodes[2]) == []
  }

  /** The run goes on by a step of server i that gives m; what was sent stays on its way. */
  lemma Next(mode: Mode, acts: seq<Action>, a: Action, i: nat, m: Node) returns (acts': seq<Action>)
    requires var c := Run(mode, Init(3), acts);
      && Shaped(c) && |c.nodes| == 3 && i < 3 && Changed(c, Do(mode, c, a), i, m)
      && NodeOk(m) && m.id == i && m.size == 3
    ensures acts' == acts + [a]
    ensures var c, d := Run(mode, Init(3), acts), Run(mode, Init(3), acts');
      Shaped(d) && d == Do(mode, c, a) && d.nodes == c.nodes[i := m] && c.net <= d.net
  {
    hide Do, Shaped;
    acts' := acts + [a];
    assert acts'[..|acts'| - 1] == acts;
    var c := Run(mode, Init(3), acts);
    S.ShapeStays(c, i, m, Do(mode, c, a));
  }

  lemma FreshViews(n: Node, p: nat)
    requires p < |n.next| && p < |n.matched| && p != n.id
    ensures FreshNext(n)[p] == LastIndex(n) + 1 && FreshMatched(n)[p] == 0
  {}

  /** What the first election does to the candidate and its voter. */
  lemma FirstElection(n: Node, k: Node)
    requires n == FreshNode(0, 3) && k == FreshNode(1, 3)
    ensures var m := StartElection(n);
      var (l, r) := ReceiveVote(k, VoteRequest(m));
      && n.role == Follower && NodeOk(m) && m.id == 0 && m.size == 3
      && VoteRequest(m).candidate == 0 && r == VoteReply(1, true) && Follows(l, [], 0)
      && LeadsWith(AnswerVote(m, 1, VoteRequest(m), r), Lead([], 0, 0, 1, 0))
  {
    var m := StartElection(n);
    assert 1 in m.awaiting && VoteRequest(m) == VoteArgs(1, 0, 0, 0);
    var w := m.(awaiting := m.awaiting - {1}, votes := 2, granters := m.granters + {1});
    FreshViews(w, 1);
    FreshViews(w, 2);
    assert AnswerVote(m, 1, VoteRequest(m), VoteReply(1, true))
        == w.(role := Leader, next := FreshNext(w), matched := FreshMatched(w));
  }

  /** Server 0 is elected with server 1's vote. */
  lemma Elected(mode: Mode) returns (acts: seq<Action>)
    ensures At(mode, acts, Lead([], 0, 0, 1, 0), [], 0)
  {
    hide StartElection, ReceiveVote, AnswerVote, VoteRequest, NodeOk, LeadsWith, Follows, Shaped, Run, FreshNode;
    acts := [];
    RunsFromStart(mode);
    var c := Init(3);
    FirstElection(c.nodes[0], c.nodes[1]);
    var n := StartElection(c.nodes[0]);
    var v := VoteRequest(n);
    var (k, r) := ReceiveVote(c.nodes[1], v);
    TimeoutAt(mode, c, 0);
    acts := Next(mode, acts, Timeout(0), 0, n);
    VoteAt(mode, Run(mode, Init(3), acts), 1, v);
    acts := Next(mode, acts, OnVote(1, v), 1, k);
    AnswerAt(mode, Run(mode, Init(3), acts), 1, v, r);
    acts := Next(mode, acts, OnVoteAnswer(1, v, r), 0, AnswerVote(n, 1, v, r));
  }

  lemma RunsFromStart(mode: Mode)
    ensures Run(mode, Init(3), []) == Init(3) && Shaped(Init(3)) && |Init(3).nodes| == 3
    ensures Init(3).nodes[0] == FreshNode(0, 3) && Init(3).nodes[1] == FreshNode(1, 3)
    ensures Full(Init(3).nodes[2]) == []
  {
    S.InitInv(3);
    S.InvIsShaped(Init(3));
  }

  function Nth(x: string, i: int): Entry {
    Entry(x, 1, i)
  }

  lemma Starts(mode: Mode, acts: seq<Action>, l: Lead, log: seq<Entry>, commit: int, x: string)
    returns (acts': seq<Action>)
    requires At(mode, acts, l, log, commit)
    ensures acts <= acts'
    ensures At(mode, acts', l.(log := l.log + [Nth(x, |l.log| + 1)]), log, commit)
    ensures Run(mode, Init(3), acts).net <= Run(mode, Init(3), acts').net
  {
    hide Run;
    var n := Run(mode, Init(3), acts).nodes[0];
    acts' := Next(mode, acts, Command(0, x), 0, StartCommand(n, x));
  }

  lemma WriteSucceeds(mode: Mode, acts: seq<Action>, l: Lead, log: seq<Entry>, commit: int, i: int)
    returns (acts': seq<Action>)
    requires At(mode, acts, l, log, commit) && l.stable <= i
    ensures acts <= acts'
    ensures At(mode, acts', l.(stable := i), log, commit)
    ensures Run(mode, Init(3), acts).net <= Run(mode, Init(3), acts').net
  {
    hide Run;
    var n := Run(mode, Init(3), acts).nodes[0];
    acts' := Next(mode, acts, Synced(0, i), 0, LogStable(n, i));
  }

  lemma WriteFails(mode: Mode, acts: seq<Action>, l: Lead, log: seq<Entry>, commit: int, i: int)
    returns (acts': seq<Action>)
    requires At(mode, acts, l, log, commit) && l.commit < i <= |l.log|
    ensures acts' == acts + [Failed(0, i)]
    ensures At(mode, acts', l.(log := l.log[..i - 1]), log, commit)
    ensures Run(mode, Init(3), acts).net <= Run(mode, Init(3), acts').net
  {
    hide Run;
    var n := Run(mode, Init(3), acts).nodes[0];
    acts' := Next(mode, acts, Failed(0, i), 0, LogFailed(n, i));
  }

  /** Two entries that the follower lacks, sent and taken. */
  function Both(e: Entry, f: Entry): AppendArgs {
    AppendArgs(1, 0, 0, 0, [e, f], 0)
  }

  lemma TakesBoth(mode: Mode, n: Node, e: Entry, f: Entry)
    requires Follows(n, [], 0) && e.index == 1 && f.index == 2
    ensures ReceiveAppend(n, Both(e, f)) == Paused(n, [Write(-1, true, e), Write(-1, true, f)])
    ensures var (m, r) := ResumeAppend(mode, n, Both(e, f), [Write(-1, true, e), Write(-1, true, f)], true);
      Follows(m, [e, f], 0) && r == AppendReply(1, true, NO_HINT)
  {
    var es, ws := [e, f], [Write(-1, true, e), Write(-1, true, f)];
    assert es[1..] == [f] && [f][1..] == [] && ws[1..] == [Write(-1, true, f)] && ws[1..][1..] == [];
    assert Writes(n, [f]) == [Write(-1, true, f)];
    assert Writes(n, es) == ws;
    assert Check(n, ws[1..], 1).Fits?;
    assert [] + [e] == [e] && [e] + [f] == es;
    assert Apply(mode, [e], 0, ws[1..]) == es;
    assert Apply(mode, [], 0, ws) == es;
  }

  /** The leader sends both its entries. */
  lemma SendsBoth(mode: Mode, acts: seq<Action>, l: Lead, e: Entry, f: Entry) returns (acts': seq<Action>)
    requires At(mode, acts, l, [], 0) && l == Lead([e, f], 0, 2, 1, 0) && e == Nth(e.command, 1) && f == Nth(f.command, 2)
    ensures acts <= acts'
    ensures At(mode, acts', l, [], 0) && AskAppend(1, Both(e, f)) in Run(mode, Init(3), acts').net
  {
    hide Run, ReceiveAppend, ResumeAppend;
    var c := Run(mode, Init(3), acts);
    var n := c.nodes[0];
    assert n.log[0..2] == [e, f];
    assert Heartbeat(mode, n, 1) == (n, Send(Both(e, f)));
    assert ShapedNode(c, 0);
    acts' := Next(mode, acts, Beat(0, 1), 0, n);
  }

  /** Server 1 takes them, whatever the leader has by then; its answer is on the way. */
  lemma TakenByOne(mode: Mode, acts: seq<Action>, l: Lead, e: Entry, f: Entry) returns (acts': seq<Action>)
    requires At(mode, acts, l, [], 0) && e == Nth(e.command, 1) && f == Nth(f.command, 2)
    requires AskAppend(1, Both(e, f)) in Run(mode, Init(3), acts).net
    ensures acts <= acts'
    ensures At(mode, acts', l, [e, f], 0)
    ensures AppendAnswer(1, Both(e, f), AppendReply(1, true, NO_HINT)) in Run(mode, Init(3), acts').net
  {
    hide Run, ReceiveAppend, ResumeAppend;
    var c, a := Run(mode, Init(3), acts), Both(e, f);
    TakesBoth(mode, c.nodes[1], e, f);
    var ws := ReceiveAppend(c.nodes[1], a).writes;
    assert ShapedNode(c, 1);
    acts' := Next(mode, acts, OnAppend(1, a), 1, c.nodes[1]);
    c := Run(mode, Init(3), acts');
    assert ShapedNode(c, 1);
    acts' := Next(mode, acts', OnResume(1, a, ws, true), 1, ResumeAppend(mode, c.nodes[1], a, ws, true).0);
  }

  /** The answer comes, and the leader commits what stands at index 2 by then. */
  lemma Counts(mode: Mode, acts: seq<Action>, l: Lead, log: seq<Entry>, a: AppendArgs) returns (acts': seq<Action>)
    requires At(mode, acts, l, log, 0) && |l.log| == l.stable == 2 && l.commit == 0 && l.matched == 0
    requires l.log[1].term == 1 && a.leader == 0 && a.prevIndex == 0 && |a.entries| == 2
    requires AppendAnswer(1, a, AppendReply(1, true, NO_HINT)) in Run(mode, Init(3), acts).net
    ensures acts <= acts'
    ensures At(mode, acts', l.(commit := 2, matched := 2, next := 3), log, 0)
  {
    hide Run;
    var c := Run(mode, Init(3), acts);
    var n, r := c.nodes[0], AppendReply(1, true, NO_HINT);
    assert ShapedNode(c, 0);
    var m := n.(matched := n.matched[1 := 2], next := n.next[1 := 3]);
    assert HandleAppend(n, 1, a, r) == AdvanceCommit(m);
    assert m.matched[1] == 2 && m.matched[2] == 0;
    assert Replicas(m, 2, 1) == 1;
    assert Replicas(m, 2, 2) == 2;
    assert Replicas(m, 2, 3) == 2;
    assert Committable(m, 2) && CommitScan(m, 2) == 2;
    acts' := Next(mode, acts, OnAppendAnswer(1, a, r), 0, m.(commit := 2));
  }

  /** An empty request tells server 1 of the commit. */
  lemma Tells(mode: Mode, acts: seq<Action>, l: Lead, log: seq<Entry>) returns (acts': seq<Action>)
    requires At(mode, acts, l, log, 0) && |l.log| == |log| == l.stable == l.commit == 2 && l.next == 3
    requires log[1].term == l.log[1].term == 1
    ensures acts <= acts'
    ensures At(mode, acts', l, log, 2)
  {
    hide Run;
    var c := Run(mode, Init(3), acts);
    var n, a := c.nodes[0], AppendArgs(1, 0, 2, 1, [], 2);
    assert n.log[2..2] == [];
    assert Heartbeat(mode, n, 1) == (n, Send(a));
    assert ShapedNode(c, 0) && ShapedNode(c, 1);
    acts' := Next(mode, acts, Beat(0, 1), 0, n);
    c := Run(mode, Init(3), acts');
    assert ShapedNode(c, 1) && ReceiveAppend(c.nodes[1], a) == Paused(c.nodes[1], []);
    acts' := Next(mode, acts', OnAppend(1, a), 1, c.nodes[1]);
    c := Run(mode, Init(3), acts');
    var m := c.nodes[1].(commit := 2, stable := if mode == Intended then 2 else Max(c.nodes[1].stable, 2));
    assert ShapedNode(c, 1) && ResumeAppend(mode, c.nodes[1], a, [], true).0 == m by {
      assert Apply(mode, log, 0, []) == log && Check(c.nodes[1], [], 2).Fits?;
    }
    acts' := Next(mode, acts', OnResume(1, a, [], true), 1, m);
  }

  /** The write of an entry fails after that of the next has succeeded, and two more entries are sent at once. */
  lemma SentTooEarly(mode: Mode, x: string) returns (acts: seq<Action>)
    ensures At(mode, acts, Lead([Nth(x, 1), Nth(x, 2)], 0, 2, 1, 0), [], 0)
    ensures AskAppend(1, Both(Nth(x, 1), Nth(x, 2))) in Run(mode, Init(3), acts).net
  {
    hide At;
    acts := Elected(mode);
    var e, f, none := Nth(x, 1), Nth(x, 2), Lead([], 0, 0, 1, 0);
    acts := StartsTwice(mode, acts, none, [], 0, x);
    acts := WriteFails(mode, acts, none.(log := [e, f]), [], 0, 1);
    acts := WriteSucceeds(mode, acts, none, [], 0, 2);
    acts := StartsTwice(mode, acts, none.(stable := 2), [], 0, x);
    acts := SendsBoth(mode, acts, Lead([e, f], 0, 2, 1, 0), e, f);
  }

  /** Server 1's answer for the first entries makes the leader commit others, and then server 1 the first. */
  lemma Diverges(mode: Mode, acts: seq<Action>, x: string, y: string) returns (acts': seq<Action>)
    requires At(mode, acts, Lead([Nth(y, 1), Nth(y, 2)], 0, 2, 1, 0), [Nth(x, 1), Nth(x, 2)], 0)
    requires AppendAnswer(1, Both(Nth(x, 1), Nth(x, 2)), AppendReply(1, true, NO_HINT)) in Run(mode, Init(3), acts).net
    ensures acts <= acts'
    ensures S.CommittedOn(Run(mode, Init(3), acts'), 0, 1, Nth(y, 1))
    ensures S.CommittedOn(Run(mode, Init(3), acts'), 1, 1, Nth(x, 1))
  {
    hide At;
    var e, f := Nth(x, 1), Nth(x, 2);
    acts' := Counts(mode, acts, Lead([Nth(y, 1), Nth(y, 2)], 0, 2, 1, 0), [e, f], Both(e, f));
    acts' := Tells(mode, acts', Lead([Nth(y, 1), Nth(y, 2)], 2, 2, 3, 2), [e, f]);
    AtCommitted(mode, acts', Lead([Nth(y, 1), Nth(y, 2)], 2, 2, 3, 2), [e, f]);
  }

  /**
    As written and repaired: the write of an entry fails after that of the next one has succeeded, so the
    entries that the leader appends in their place are below its stable index and are sent at once. When
    their write fails in turn, the server that has taken them keeps them. It acknowledges indices under
    which the leader by now has other entries, and the two commit different ones.
   */
  lemma FailedWriteLosesCommitted(mode: Mode, x: string, y: string)
    requires x != y
    ensures exists acts :: S.CommittedOn(Run(mode, Init(3), acts), 0, 1, Nth(y, 1))
                           && S.CommittedOn(Run(mode, Init(3), acts), 1, 1, Nth(x, 1))
  {
    hide At;
    var e, f := Nth(x, 1), Nth(x, 2);
    var acts := SentTooEarly(mode, x);
    acts := TakenByOne(mode, acts, Lead([e, f], 0, 2, 1, 0), e, f);
    acts := WriteFails(mode, acts, Lead([e, f], 0, 2, 1, 0), [e, f], 0, 1);
    acts := StartsTwice(mode, acts, Lead([], 0, 2, 1, 0), [e, f], 0, y);
    acts := Diverges(mode, acts, x, y);
  }

  /** Entry e at position p is in the log of a server other than i. */
  predicate HeldElsewhere(c: Cluster, i: nat, p: nat, e: Entry) {
    exists j :: 0 <= j < |c.nodes| && j != i && Has(Full(c.nodes[j]), p, e)
  }

  /**
    It is not enough that no other server holds the entry when its write fails: here it is still on its way
    in a request then, arrives after the leader has put another entry in its place, and the run ends in the
    same way.
   */
  lemma UnheldWriteLosesCommitted(mode: Mode, x: string, y: string)
    requires x != y
    ensures exists acts, k: nat ::
      && k < |acts| && acts[k] == Failed(0, 1)
      && HasAtIndex(Run(mode, Init(3), acts[..k]), 0, Nth(x, 1))
      && !HeldElsewhere(Run(mode, Init(3), acts[..k]), 0, 0, Nth(x, 1))
      && S.CommittedOn(Run(mode, Init(3), acts), 0, 1, Nth(y, 1))
      && S.CommittedOn(Run(mode, Init(3), acts), 1, 1, Nth(x, 1))
  {
    hide At, Run;
    var e, f := Nth(x, 1), Nth(x, 2);
    var before := SentTooEarly(mode, x);
    OnlyLeaderHolds(mode, before, Lead([e, f], 0, 2, 1, 0), e);
    var acts := WriteFails(mode, before, Lead([e, f], 0, 2, 1, 0), [], 0, 1);
    var failed := acts;
    acts := StartsTwice(mode, acts, Lead([], 0, 2, 1, 0), [], 0, y);
    acts := TakenByOne(mode, acts, Lead([Nth(y, 1), Nth(y, 2)], 0, 2, 1, 0), e, f);
    acts := Diverges(mode, acts, x, y);
    assert failed <= acts && acts[..|before|] == before && acts[|before|] == Failed(0, 1);
  }

  /** Server i has entry e in its log, at the index that e names. */
  predicate HasAtIndex(c: Cluster, i: nat, e: Entry) {
    i < |c.nodes| && Has(Full(c.nodes[i]), e.index - 1, e)
  }

  lemma OnlyLeaderHolds(mode: Mode, acts: seq<Action>, l: Lead, e: Entry)
    requires At(mode, acts, l, [], 0) && |l.log| > 0 && l.log[0] == e && e.index == 1
    ensures var c := Run(mode, Init(3), acts); HasAtIndex(c, 0, e) && !HeldElsewhere(c, 0, 0, e)
  {
    hide Run;
  }

  lemma AtCommitted(mode: Mode, acts: seq<Action>, l: Lead, log: seq<Entry>)
    requires At(mode, acts, l, log, 2) && l.commit == 2 && |l.log| == |log| == 2
    ensures S.CommittedOn(Run(mode, Init(3), acts), 0, 1, l.log[0]) && S.CommittedOn(Run(mode, Init(3), acts), 1, 1, log[0])
  {
    hide Run;
  }

  lemma StartsTwice(mode: Mode, acts: seq<Action>, l: Lead, log: seq<Entry>, commit: int, x: string)
    returns (acts': seq<Action>)
    requires At(mode, acts, l, log, commit) && l.log == []
    ensures acts <= acts'
    ensures At(mode, acts', l.(log := [Nth(x, 1), Nth(x, 2)]), log, commit)
    ensures Run(mode, Init(3), acts).net <= Run(mode, Init(3), acts').net
  {
    hide Run, At;
    acts' := Starts(mode, acts, l, log, commit, x);
    assert [] + [Nth(x, 1)] == [Nth(x, 1)] && [Nth(x, 1)] + [Nth(x, 2)] == [Nth(x, 1), Nth(x, 2)];
    acts' := Starts(mode, acts', l.(log := [Nth(x, 1)]), log, commit, x);
  }
}
