/**
  A run of five servers with the handlers as written in which two servers commit different entries at
  the same index. The second term's leader keeps its own entry; the third term's leader replaces one
  slot of the first's log and leaves the stale entry behind it, commits, and the first server then
  votes for the second because its last term is understated.
 */
module ClusterRuns {
  import opened RaftTypes
  import opened RaftNode
  import opened Cluster
  import opened ClusterSteps
  import S = RaftSafety
  import R = RaftIndices
  import D = RaftDepartures

  // ------------------------------------------------------------------ one step

  /** One more step of a run, from a cluster in which every node keeps the index invariant. */
  lemma Step(c: Cluster, acts: seq<Action>, a: Action) returns (acts': seq<Action>, d: Cluster)
    requires Shaped(Run(AsWritten, c, acts))
    ensures acts' == acts + [a] && d == Run(AsWritten, c, acts') == Do(AsWritten, Run(AsWritten, c, acts), a)
    ensures Shaped(d)
  {
    acts' := acts + [a];
    assert acts'[..|acts'| - 1] == acts;
    d := Run(AsWritten, c, acts');
    S.StepShaped(Run(AsWritten, c, acts), a);
  }

  lemma {:induction false} RunOn(c: Cluster, acts: seq<Action>, more: seq<Action>)
    ensures Run(AsWritten, Run(AsWritten, c, acts), more) == Run(AsWritten, c, acts + more)
    decreases |more|
  {
    if more == [] {
      assert acts + more == acts;
    } else {
      assert (acts + more)[..|acts + more| - 1] == acts + more[..|more| - 1];
      RunOn(c, acts, more[..|more| - 1]);
    }
  }

  lemma RunNothing(c: Cluster)
    ensures Run(AsWritten, c, []) == c
  {}

  lemma OkIndex(n: Node)
    requires NodeOk(n)
    ensures IndexOk(n)
  {}

  // ------------------------------------------------------------------ an election

  function OneVote(n: Node, v: nat): Node {
    n.(role := Candidate, term := n.term + 1, vote := n.id,
       votes := 2, granters := {v}, awaiting := Peers(n) - {v})
  }

  /** The node after it has been voted in by v and w. */
  function Winner(n: Node, v: nat, w: nat): Node {
    var m := OneVote(n, v).(votes := 3, granters := {v} + {w}, awaiting := Peers(n) - {v} - {w});
    m.(role := Leader, next := FreshNext(m), matched := FreshMatched(m))
  }

  function Voter(n: Node, t: int, i: nat): Node {
    n.(term := t, vote := i, role := Follower)
  }

  predicate Behind(n: Node, m: Node) {
    && n.term <= m.term
    && (LastTerm(m) > LastTerm(n) || (LastTerm(m) == LastTerm(n) && LastIndex(m) >= LastIndex(n)))
  }

  lemma VoterGrants(n: Node, i: nat, m: Node)
    requires Behind(n, m) && m.id == i
    ensures ReceiveVote(n, VoteRequest(StartElection(m.(role := Follower))))
            == (Voter(n, m.term + 1, i), VoteReply(m.term + 1, true))
  {}

  /** A granted vote of the current election is counted. */
  lemma VoteCounts(n: Node, v: nat, a: VoteArgs, r: VoteReply)
    requires n.role == Candidate && a.term == n.term && r == VoteReply(n.term, true) && v in n.awaiting
    ensures var m := n.(awaiting := n.awaiting - {v}, votes := n.votes + 1, granters := n.granters + {v});
      AnswerVote(n, v, a, r)
      == if n.votes + 1 >= n.size / 2 + 1 then m.(role := Leader, next := FreshNext(m), matched := FreshMatched(m))
         else m
  {}

  lemma PeerOf(n: Node, w: nat)
    requires n.size == 5 && w < 5 && w != n.id
    ensures w in Peers(n)
  {}

  lemma OneCounted(n: Node, v: nat)
    requires n.role != Leader && n.size == 5 && n.id < 5 && v < 5 && v != n.id
    ensures AnswerVote(StartElection(n), v, VoteRequest(StartElection(n)), VoteReply(n.term + 1, true)) == OneVote(n, v)
    ensures VoteRequest(StartElection(n)).term == n.term + 1
  {
    hide AnswerVote;
    var m := StartElection(n);
    VoteCounts(m, v, VoteRequest(m), VoteReply(n.term + 1, true));
    assert {} + {v} == {v};
  }

  lemma WinnerCounts(n: Node, v: nat, w: nat)
    requires n.role != Leader && n.size == 5 && n.id < 5 && v < 5 && w < 5 && v != n.id && w != n.id && v != w
    ensures var m := StartElection(n);
      var a, r := VoteRequest(m), VoteReply(n.term + 1, true);
      AnswerVote(AnswerVote(m, v, a, r), w, a, r) == Winner(n, v, w)
  {
    hide AnswerVote, FreshNext, FreshMatched, Peers, VoteRequest, StartElection;
    OneCounted(n, v);
    PeerOf(n, w);
    VoteCounts(OneVote(n, v), w, VoteRequest(StartElection(n)), VoteReply(n.term + 1, true));
  }

  /** Five servers, and three different ones among them. */
  ghost predicate Five(c: Cluster, i: nat, v: nat, w: nat) {
    Shaped(c) && |c.nodes| == 5 && i < 5 && v < 5 && w < 5 && i != v && i != w && v != w
  }

  /** A candidate's request names it, and does not depend on the role it had before. */
  lemma Asks(n: Node)
    requires n.role != Leader
    ensures VoteRequest(StartElection(n)).candidate == n.id
    ensures VoteRequest(StartElection(n)) == VoteRequest(StartElection(n.(role := Follower)))
  {}

  /** Three elements replaced. */
  function Ballot<T>(s: seq<T>, i: nat, x: T, v: nat, y: T, w: nat, z: T): (r: seq<T>)
    requires i < |s| && v < |s| && w < |s|
    ensures |r| == |s|
  {
    s[i := x][v := y][w := z]
  }

  lemma Recount<T>(s: seq<T>, i: nat, x: T, v: nat, y: T, w: nat, z: T, x': T)
    requires i < |s| && v < |s| && w < |s| && i != v && i != w && v != w
    ensures Ballot(s, i, x, v, y, w, z)[i] == x
    ensures Ballot(s, i, x, v, y, w, z)[i := x'] == Ballot(s, i, x', v, y, w, z)
  {}

  /** Node i asks for votes, and v and w grant them. */
  lemma Canvass(c: Cluster, i: nat, v: nat, w: nat) returns (acts: seq<Action>, d: Cluster)
    requires Five(c, i, v, w) && c.nodes[i].id == i
    requires c.nodes[i].role != Leader && Behind(c.nodes[v], c.nodes[i]) && Behind(c.nodes[w], c.nodes[i])
    ensures d == Run(AsWritten, c, acts) && Shaped(d) && c.net <= d.net
    ensures var t := c.nodes[i].term + 1;
      var a := VoteRequest(StartElection(c.nodes[i]));
      && {AskVote(a), VoteAnswer(v, a, VoteReply(t, true)), VoteAnswer(w, a, VoteReply(t, true))} <= d.net
      && d.nodes == Ballot(c.nodes, i, StartElection(c.nodes[i]), v, Voter(c.nodes[v], t, i), w, Voter(c.nodes[w], t, i))
  {
    hide Do, Shaped, StartElection, ReceiveVote, VoteRequest, Voter, Behind, Run;
    var n := c.nodes[i];
    var a := VoteRequest(StartElection(n));
    Asks(n);
    VoterGrants(c.nodes[v], i, n);
    VoterGrants(c.nodes[w], i, n);
    TimeoutAt(AsWritten, c, i);
    RunNothing(c);
    acts, d := Step(c, [], Timeout(i));
    VoteAt(AsWritten, d, v, a);
    acts, d := Step(c, acts, OnVote(v, a));
    VoteAt(AsWritten, d, w, a);
    acts, d := Step(c, acts, OnVote(w, a));
  }

  /** Node i is elected with the votes of v and w. */
  lemma Elect(c: Cluster, i: nat, v: nat, w: nat) returns (acts: seq<Action>, d: Cluster)
    requires Five(c, i, v, w) && c.nodes[i].role != Leader
    requires Behind(c.nodes[v], c.nodes[i]) && Behind(c.nodes[w], c.nodes[i])
    ensures d == Run(AsWritten, c, acts) && Shaped(d) && c.net <= d.net
    ensures AskVote(VoteRequest(StartElection(c.nodes[i]))) in d.net
    ensures var t := c.nodes[i].term + 1;
      d.nodes == Ballot(c.nodes, i, Winner(c.nodes[i], v, w), v, Voter(c.nodes[v], t, i), w, Voter(c.nodes[w], t, i))
  {
    hide Do, Shaped, StartElection, AnswerVote, VoteRequest, Winner, Voter, Behind, Run, Ballot;
    var n := c.nodes[i];
    ShapedAt(c, i);
    var y, z := Voter(c.nodes[v], n.term + 1, i), Voter(c.nodes[w], n.term + 1, i);
    var a, r := VoteRequest(StartElection(n)), VoteReply(n.term + 1, true);
    Asks(n);
    WinnerCounts(n, v, w);
    acts, d := Canvass(c, i, v, w);
    var one := AnswerVote(StartElection(n), v, a, r);
    Recount(c.nodes, i, StartElection(n), v, y, w, z, one);
    AnswerAt(AsWritten, d, v, a, r);
    acts, d := Step(c, acts, OnVoteAnswer(v, a, r));
    Recount(c.nodes, i, one, v, y, w, z, Winner(n, v, w));
    AnswerAt(AsWritten, d, w, a, r);
    acts, d := Step(c, acts, OnVoteAnswer(w, a, r));
  }

  // ------------------------------------------------------------------ a request

  /** The leader's request to f, f's two halves of it, and the leader's handling of the answer. */
  ghost predicate Exchange(n: Node, m: Node, f: nat, a: AppendArgs, m': Node, r: AppendReply) {
    && NodeOk(n) && NodeOk(m) && f < n.size
    && Heartbeat(AsWritten, n, f) == (n, Send(a)) && a.leader == n.id
    && match ReceiveAppend(m, a)
       case Exited => false
       case Answered(k, s) => m' == k && r == s
       case Paused(k, ws) => IndexOk(k) && ResumeAppend(AsWritten, k, a, ws, true) == (m', r)
  }

  lemma Replicate(c: Cluster, l: nat, f: nat, a: AppendArgs, m: Node, r: AppendReply)
    returns (acts: seq<Action>, d: Cluster)
    requires Shaped(c) && l < |c.nodes| && f < |c.nodes| && l != f && ShapedNode(c, l) && ShapedNode(c, f)
    requires Exchange(c.nodes[l], c.nodes[f], f, a, m, r)
    ensures d == Run(AsWritten, c, acts) && Shaped(d) && c.net <= d.net
    ensures d.nodes == c.nodes[f := m][l := HandleAppend(c.nodes[l], f, a, r)]
  {
    hide Do, Shaped, Heartbeat, ReceiveAppend, ResumeAppend, HandleAppend, Run, NodeOk;
    BeatAt(AsWritten, c, l, f);
    RunNothing(c);
    acts, d := Step(c, [], Beat(l, f));
    assert d.nodes == c.nodes;
    ShapedAt(d, f);
    AppendAt(AsWritten, d, f, a);
    OkIndex(c.nodes[f]);
    var o := ReceiveAppend(c.nodes[f], a);
    acts, d := Step(c, acts, OnAppend(f, a));
    if o.Paused? {
      ShapedAt(d, f);
      ResumeAt(AsWritten, d, f, a, o.writes);
      acts, d := Step(c, acts, OnResume(f, a, o.writes, true));
    }
    ShapedAt(d, l);
    AppendAnswerAt(AsWritten, d, f, a, r);
    acts, d := Step(c, acts, OnAppendAnswer(f, a, r));
  }

  // ------------------------------------------------------------------ what a server shows

  /** The parts of a server that matter in this run, in which nobody takes a snapshot. */
  datatype Face = Face(term: int, role: Role, log: seq<Entry>, commit: int, stable: int)

  ghost predicate Looks(n: Node, id: nat, f: Face) {
    && n.id == id && n.size == 5 && n.snapIndex == 0 && n.snapTerm == 0 && n.snapData == [] && n.applied == 0
    && |n.next| == 5 && |n.matched| == 5 && NodeOk(n)
    && f == Face(n.term, n.role, n.log, n.commit, n.stable)
  }

  ghost predicate Shows(c: Cluster, fs: seq<Face>) {
    Shaped(c) && |c.nodes| == 5 && |fs| == 5 && forall i: nat :: i < 5 ==> Looks(c.nodes[i], i, fs[i])
  }

  lemma LooksFields(n: Node, id: nat, f: Face)
    requires Looks(n, id, f)
    ensures n.role == f.role && n.term == f.term
  {}

  /** The leader's next index for peer p, and what it knows p to hold. */
  predicate Knows(n: Node, p: nat, next: int, matched: int) {
    |n.next| == 5 && |n.matched| == 5 && p < 5 && n.next[p] == next && n.matched[p] == matched
  }

  ghost predicate Reset(n: Node, next: int) {
    forall p: nat {:trigger Knows(n, p, next, 0)} :: p < 5 && p != n.id ==> Knows(n, p, next, 0)
  }

  predicate FaceBehind(f: Face, g: Face) {
    var a, b := if f.log == [] then 0 else f.log[|f.log| - 1].term, if g.log == [] then 0 else g.log[|g.log| - 1].term;
    f.term <= g.term && (a < b || (a == b && |f.log| <= |g.log|))
  }

  lemma FacesCompare(n: Node, i: nat, f: Face, m: Node, j: nat, g: Face)
    requires Looks(n, i, f) && Looks(m, j, g) && FaceBehind(f, g)
    ensures Behind(n, m)
  {}

  lemma WinnerLooks(n: Node, v: nat, w: nat, id: nat, f: Face)
    requires Looks(n, id, f) && NodeOk(Winner(n, v, w))
    ensures Looks(Winner(n, v, w), id, f.(term := f.term + 1, role := Leader))
    ensures Reset(Winner(n, v, w), |f.log| + 1)
  {
    hide Peers;
    var m := OneVote(n, v).(votes := 3, granters := {v} + {w}, awaiting := Peers(n) - {v} - {w});
    assert LastIndex(m) == |f.log|;
    var won, next := Winner(n, v, w), |f.log| + 1;
    forall p: nat | p < 5 && p != id ensures Knows(won, p, next, 0) {
      assert FreshNext(m)[p] == next && FreshMatched(m)[p] == 0;
    }
  }

  lemma VoterLooks(n: Node, id: nat, f: Face, t: int, i: nat)
    requires Looks(n, id, f)
    ensures Looks(Voter(n, t, i), id, f.(term := t, role := Follower))
  {}

  /** One server changed. */
  lemma ShowsNext(c: Cluster, fs: seq<Face>, d: Cluster, i: nat, n: Node, f: Face)
    requires Shows(c, fs) && Changed(c, d, i, n) && Shaped(d) && Looks(n, i, f)
    ensures Shows(d, fs[i := f])
  {
    hide Looks, Shaped;
  }

  // ------------------------------------------------------------------ steps of a run

  /** A run from c that shows fs at its end. */
  ghost predicate Reaches(c: Cluster, acts: seq<Action>, fs: seq<Face>) {
    Shows(Run(AsWritten, c, acts), fs)
  }

  function Elected(fs: seq<Face>, i: nat, v: nat, w: nat): seq<Face>
    requires i < |fs| && v < |fs| && w < |fs|
  {
    var t := fs[i].term + 1;
    fs[i := fs[i].(term := t, role := Leader)]
      [v := fs[v].(term := t, role := Follower)][w := fs[w].(term := t, role := Follower)]
  }

  lemma ElectShows(c: Cluster, before: seq<Action>, fs: seq<Face>, i: nat, v: nat, w: nat) returns (acts: seq<Action>)
    requires Reaches(c, before, fs) && i < 5 && v < 5 && w < 5 && i != v && i != w && v != w
    requires fs[i].role != Leader && FaceBehind(fs[v], fs[i]) && FaceBehind(fs[w], fs[i])
    ensures before <= acts && Run(AsWritten, c, before).net <= Run(AsWritten, c, acts).net
    ensures Reaches(c, acts, Elected(fs, i, v, w))
    ensures var d := Run(AsWritten, c, acts);
      |d.nodes| == 5 && Reset(d.nodes[i], |fs[i].log| + 1)
      && AskVote(VoteRequest(StartElection(Run(AsWritten, c, before).nodes[i]))) in d.net
  {
    hide Shaped, Winner, Voter, Behind, Run, StartElection, VoteRequest, Looks, FaceBehind, Reset;
    var b := Run(AsWritten, c, before);
    FacesCompare(b.nodes[v], v, fs[v], b.nodes[i], i, fs[i]);
    FacesCompare(b.nodes[w], w, fs[w], b.nodes[i], i, fs[i]);
    LooksFields(b.nodes[i], i, fs[i]);
    var more, d := Elect(b, i, v, w);
    RunOn(c, before, more);
    acts := before + more;
    ShapedAt(d, i);
    WinnerLooks(b.nodes[i], v, w, i, fs[i]);
    VoterLooks(b.nodes[v], v, fs[v], fs[i].term + 1, i);
    VoterLooks(b.nodes[w], w, fs[w], fs[i].term + 1, i);
  }

  /** A step that changes only server i. */
  lemma StepShows(c: Cluster, before: seq<Action>, fs: seq<Face>, a: Action, i: nat, n: Node, f: Face)
    returns (acts: seq<Action>)
    requires Reaches(c, before, fs) && i < 5 && Looks(n, i, f)
    requires Changed(Run(AsWritten, c, before), Do(AsWritten, Run(AsWritten, c, before), a), i, n)
    ensures acts == before + [a] && Reaches(c, acts, fs[i := f])
    ensures Run(AsWritten, c, acts).nodes == Run(AsWritten, c, before).nodes[i := n]
    ensures Run(AsWritten, c, before).net <= Run(AsWritten, c, acts).net
  {
    hide Shaped, Run, Looks;
    var d;
    acts, d := Step(c, before, a);
    ShowsNext(Run(AsWritten, c, before), fs, d, i, n, f);
  }

  lemma CommandShows(c: Cluster, before: seq<Action>, fs: seq<Face>, i: nat, command: string) returns (acts: seq<Action>)
    requires Reaches(c, before, fs) && i < 5 && fs[i].role == Leader
    ensures before <= acts
    ensures var e := Entry(command, fs[i].term, |fs[i].log| + 1);
      Reaches(c, acts, fs[i := fs[i].(log := fs[i].log + [e])])
    ensures Run(AsWritten, c, before).net <= Run(AsWritten, c, acts).net
    ensures |Run(AsWritten, c, acts).nodes| == 5
    ensures var n, m := Run(AsWritten, c, before).nodes[i], Run(AsWritten, c, acts).nodes[i];
      m.id == n.id && m.next == n.next && m.matched == n.matched
  {
    hide Do, Run, Shaped;
    var b := Run(AsWritten, c, before);
    assert Looks(b.nodes[i], i, fs[i]);
    CommandAt(AsWritten, b, i, command);
    acts := StepShows(c, before, fs, Command(i, command), i, StartCommand(b.nodes[i], command),
                      fs[i].(log := fs[i].log + [Entry(command, fs[i].term, |fs[i].log| + 1)]));
  }

  lemma SyncedShows(c: Cluster, before: seq<Action>, fs: seq<Face>, i: nat, index: int) returns (acts: seq<Action>)
    requires Reaches(c, before, fs) && i < 5 && fs[i].stable <= index
    ensures before <= acts && Reaches(c, acts, fs[i := fs[i].(stable := index)])
    ensures Run(AsWritten, c, before).net <= Run(AsWritten, c, acts).net
    ensures |Run(AsWritten, c, acts).nodes| == 5
    ensures var n, m := Run(AsWritten, c, before).nodes[i], Run(AsWritten, c, acts).nodes[i];
      m.id == n.id && m.next == n.next && m.matched == n.matched
  {
    hide Do, Run, Shaped;
    var b := Run(AsWritten, c, before);
    assert Looks(b.nodes[i], i, fs[i]);
    SyncedAt(AsWritten, b, i, index);
    acts := StepShows(c, before, fs, Synced(i, index), i, LogStable(b.nodes[i], index), fs[i].(stable := index));
  }

  // ------------------------------------------------------------------ a leader with everything on disk

  /** The request for everything a fully stable leader holds, from its start. */
  function Whole(i: nat, f: Face): AppendArgs {
    AppendArgs(f.term, i, 0, 0, f.log, f.commit)
  }

  lemma WholeIsSent(n: Node, i: nat, f: Face, p: nat)
    requires Looks(n, i, f) && f.role == Leader && p < 5 && p != i && n.next[p] == 1 && f.stable == |f.log|
    ensures Heartbeat(AsWritten, n, p) == (n, Send(Whole(i, f)))
  {
    assert n.log[0..|n.log|] == n.log;
  }

  /** One log lies over another, term by term different where they overlap. */
  predicate Overlay(g: seq<Entry>, l: seq<Entry>) {
    forall k :: 0 <= k < |g| && k < |l| ==> g[k].term != l[k].term
  }

  /** Slot by slot, the request replaces what it covers and leaves the rest. */
  function LaidOver(g: seq<Entry>, l: seq<Entry>): (r: seq<Entry>)
    ensures r == if |g| <= |l| then l else l + g[|l|..]
  {
    D.Overlaid(g, l, |l|)
  }

  /** The write for an entry that the node does not have. */
  function WriteOf(n: Node, p: int, e: Entry): Write {
    Write(if p < |Full(n)| then p - n.snapIndex else -1, p >= |Full(n)|, e)
  }

  lemma WritesHead(n: Node, p: int, es: seq<Entry>)
    requires IndexOk(n) && |n.snapData| == n.snapIndex && es != [] && es[0].index == p + 1 && n.snapIndex <= p
    requires p < |Full(n)| ==> Full(n)[p].term != es[0].term
    ensures Writes(n, es) == [WriteOf(n, p, es[0])] + Writes(n, es[1..])
  {
    var rest := Writes(n, es[1..]);
    assert LastIndex(n) == |Full(n)|;
    if p < |Full(n)| {
      assert Full(n)[p] == n.log[p - n.snapIndex];
      assert Writes(n, es) == [Write(p - n.snapIndex, false, es[0])] + rest;
    } else {
      assert Writes(n, es) == [Write(-1, true, es[0])] + rest;
    }
  }

  /** The first of the writes is made and checked. */
  lemma WriteFirst(n: Node, log: seq<Entry>, w: Write, ws: seq<Write>)
    requires IndexOk(n) && n.snapIndex == 0 && w.entry.index > 0
    requires if w.append then w.entry.index == |log| + 1
             else 0 <= w.slot < |log| && w.slot < |n.log| && w.entry.index == w.slot + 1
    ensures var log' := if w.append then log + [w.entry] else log[w.slot := w.entry];
      && Apply(AsWritten, log, 0, [w] + ws) == Apply(AsWritten, log', 0, ws)
      && Check(n, [w] + ws, |log|) == Check(n, ws, |log'|)
  {
    D.ApplyHead(log, 0, w, ws);
    assert ([w] + ws)[1..] == ws;
  }

  /** The entries laid over a log up to one more. */
  lemma OverlayNext(g: seq<Entry>, l: seq<Entry>, k: nat, log: seq<Entry>)
    requires k < |l| && log == LaidOver(g, l[..k]) && Numbered(log, 0) && Numbered(l, 0)
    ensures k <= |log| && (k >= |g| ==> k == |log|)
    ensures var log' := if k < |g| then log[k := l[k]] else log + [l[k]];
      log' == LaidOver(g, l[..k + 1]) && Numbered(log', 0)
  {
    assert l[..k + 1] == l[..k] + [l[k]];
  }

  /** The writes for entries l[k..], all of which differ from what the node holds there. */
  lemma {:induction false} OverlayWrites(n: Node, l: seq<Entry>, k: nat, log: seq<Entry>)
    requires IndexOk(n) && n.snapIndex == 0 && n.snapData == [] && Numbered(l, 0) && k <= |l| && Overlay(n.log, l)
    requires log == LaidOver(n.log, l[..k]) && Numbered(log, 0)
    ensures var ws := Writes(n, l[k..]);
      Apply(AsWritten, log, 0, ws) == LaidOver(n.log, l) && Check(n, ws, |log|).Fits?
    decreases |l| - k
  {
    if k == |l| {
      assert l[..k] == l;
    } else {
      var e, rest := l[k], l[k + 1..];
      assert l[k..][1..] == rest && Full(n) == n.log;
      WritesHead(n, k, l[k..]);
      OverlayNext(n.log, l, k, log);
      hide LaidOver, Overlay, Numbered, Writes, Apply, Check;
      WriteFirst(n, log, WriteOf(n, k, e), Writes(n, rest));
      OverlayWrites(n, l, k + 1, if k < |n.log| then log[k := e] else log + [e]);
    }
  }

  lemma OverlayClashless(n: Node, l: seq<Entry>)
    requires IndexOk(n) && n.snapIndex == 0 && Numbered(l, 0) && Overlay(n.log, l)
    ensures forall e <- l :: !Clashes(n, e)
  {
    forall e <- l ensures !Clashes(n, e) {
      var j :| 0 <= j < |l| && l[j] == e;
    }
  }

  function Taken(f: Face, g: Face): Face {
    Face(f.term, Follower, LaidOver(g.log, f.log), g.commit, Max(g.stable, |LaidOver(g.log, f.log)|))
  }

  /** A follower with other terms throughout takes a leader's whole log, as written. */
  lemma WholeIsTaken(m: Node, j: nat, g: Face, i: nat, f: Face) returns (m': Node)
    requires Looks(m, j, g) && g.term <= f.term && f.commit <= g.commit && Overlay(g.log, f.log) && Numbered(f.log, 0)
    ensures NodeOk(m') && Looks(m', j, Taken(f, g))
    ensures match ReceiveAppend(m, Whole(i, f))
      case Paused(k, ws) => IndexOk(k) &&
        ResumeAppend(AsWritten, k, Whole(i, f), ws, true) == (m', AppendReply(f.term, true, NO_HINT))
      case _ => false
  {
    var k := BecomeFollower(m, f.term);
    var g' := g.(term := f.term, role := Follower);
    Following(m, j, g, f.term);
    hide *;
    WholeDecided(k, j, g', f);
    WholePauses(m, j, g, i, f);
    m' := WholeIsApplied(k, j, g', i, f, Writes(k, f.log));
    TakenAnyTerm(g, f);
  }

  lemma Following(m: Node, j: nat, g: Face, term: int)
    requires Looks(m, j, g) && g.term <= term
    ensures var k := BecomeFollower(m, term);
      IndexOk(k) && Looks(k, j, g.(term := term, role := Follower))
  {}

  lemma TakenAnyTerm(g: Face, f: Face)
    ensures Taken(f, g.(term := f.term, role := Follower)) == Taken(f, g)
  {}

  /** The writes a follower decides on for a leader's whole log are all its entries, and they fit. */
  lemma WholeDecided(k: Node, j: nat, g: Face, f: Face)
    requires IndexOk(k) && Looks(k, j, g) && Overlay(g.log, f.log) && Numbered(f.log, 0)
    ensures var ws := Writes(k, f.log);
      Check(k, ws, |k.log|).Fits? && Apply(AsWritten, k.log, 0, ws) == LaidOver(k.log, f.log)
    ensures forall e <- f.log :: !Clashes(k, e)
  {
    hide Writes, Check, Apply;
    OverlayWrites(k, f.log, 0, k.log);
    OverlayClashless(k, f.log);
    assert f.log[0..] == f.log;
  }

  lemma WholePauses(m: Node, j: nat, g: Face, i: nat, f: Face)
    requires Looks(m, j, g) && g.term <= f.term && IndexOk(BecomeFollower(m, f.term))
    requires forall e <- f.log :: !Clashes(BecomeFollower(m, f.term), e)
    ensures var k := BecomeFollower(m, f.term);
      ReceiveAppend(m, Whole(i, f)) == Paused(k, Writes(k, f.log))
  {}

  lemma WholeIsApplied(k: Node, j: nat, g: Face, i: nat, f: Face, ws: seq<Write>) returns (m: Node)
    requires Looks(k, j, g) && g.term == f.term && g.role == Follower && f.commit <= g.commit
    requires Check(k, ws, |k.log|).Fits? && Apply(AsWritten, k.log, 0, ws) == LaidOver(k.log, f.log)
    ensures NodeOk(m) && Looks(m, j, Taken(f, g))
    ensures ResumeAppend(AsWritten, k, Whole(i, f), ws, true) == (m, AppendReply(f.term, true, NO_HINT))
  {
    hide Check, Apply;
    m := ResumeAppend(AsWritten, k, Whole(i, f), ws, true).0;
    R.ResumeAppendSteady(k, Whole(i, f), ws, true);
  }

  lemma FiveReplicas(n: Node, i: int)
    requires |n.matched| == 5
    ensures Replicas(n, i, 5) == 1 + Reaching(n, i, 0) + Reaching(n, i, 1) + Reaching(n, i, 2)
                                   + Reaching(n, i, 3) + Reaching(n, i, 4)
  {
    assert Replicas(n, i, 1) == 1 + Reaching(n, i, 0);
    assert Replicas(n, i, 2) == Replicas(n, i, 1) + Reaching(n, i, 1);
    assert Replicas(n, i, 3) == Replicas(n, i, 2) + Reaching(n, i, 2);
    assert Replicas(n, i, 4) == Replicas(n, i, 3) + Reaching(n, i, 3);
  }

  function Reaching(n: Node, i: int, p: nat): nat
    requires p < |n.matched|
  {
    if p != n.id && n.matched[p] >= i then 1 else 0
  }

  /** The leader learns that p holds its whole log. */
  function Told(n: Node, p: nat): Node
    requires p < |n.next| && p < |n.matched|
  {
    n.(matched := n.matched[p := |n.log|], next := n.next[p := |n.log| + 1])
  }

  lemma ToldSteady(n: Node, id: nat, f: Face, p: nat)
    requires Looks(n, id, f) && f.role == Leader && p < 5 && n.matched[p] == 0
    ensures NodeOk(Told(n, p))
    ensures HandleAppend(n, p, Whole(id, f), AppendReply(f.term, true, NO_HINT)) == AdvanceCommit(Told(n, p))
  {}

  lemma FirstAnswer(n: Node, id: nat, f: Face, p: nat)
    requires Looks(n, id, f) && f.role == Leader && f.commit == 0 && p < 5 && p != id
    requires forall q :: 0 <= q < 5 && q != id ==> n.matched[q] == 0
    ensures HandleAppend(n, p, Whole(id, f), AppendReply(f.term, true, NO_HINT)) == Told(n, p)
  {
    ToldSteady(n, id, f, p);
    var m := Told(n, p);
    forall j ensures !R.MayCommit(m, j) {
      if j > 0 {
        FiveReplicas(m, j);
        assert |R.Replicators(m, j)| <= 2;
      }
    }
    R.AdvanceCommitExact(m);
  }

  lemma SecondAnswer(n: Node, id: nat, f: Face, p: nat, q: nat)
    requires Looks(n, id, f) && f.role == Leader && f.commit == 0 && p < 5 && p != id && q < 5 && q != id && p != q
    requires n.matched[p] == 0 && n.matched[q] == |f.log| && f.stable == |f.log| > 0
    requires f.log[|f.log| - 1].term == f.term
    ensures HandleAppend(n, p, Whole(id, f), AppendReply(f.term, true, NO_HINT)) == Told(n, p).(commit := |f.log|)
  {
    ToldSteady(n, id, f, p);
    var m := Told(n, p);
    FiveReplicas(m, |f.log|);
    assert Reaching(m, |f.log|, p) == 1 && Reaching(m, |f.log|, q) == 1;
    assert |R.Replicators(m, |f.log|)| >= 3;
    assert R.MayCommit(m, |f.log|);
    R.AdvanceCommitExact(m);
  }

  /** The leader sends its whole log to p, which takes it; the leader handles the answer. */
  lemma PushShows(c: Cluster, before: seq<Action>, fs: seq<Face>, i: nat, p: nat, commit: int)
    returns (acts: seq<Action>)
    requires Reaches(c, before, fs) && i < 5 && p < 5 && i != p
    requires fs[i].role == Leader && fs[i].stable == |fs[i].log| && Numbered(fs[i].log, 0)
    requires fs[p].term <= fs[i].term && fs[i].commit <= fs[p].commit && Overlay(fs[p].log, fs[i].log)
    requires var n := Run(AsWritten, c, before).nodes[i];
      && n.next[p] == 1 && |n.matched| == 5
      && HandleAppend(n, p, Whole(i, fs[i]), AppendReply(fs[i].term, true, NO_HINT)) == Told(n, p).(commit := commit)
    ensures before <= acts && Reaches(c, acts, fs[p := Taken(fs[i], fs[p])][i := fs[i].(commit := commit)])
    ensures Run(AsWritten, c, before).net <= Run(AsWritten, c, acts).net
    ensures |Run(AsWritten, c, acts).nodes| == 5
    ensures Run(AsWritten, c, acts).nodes[i] == Told(Run(AsWritten, c, before).nodes[i], p).(commit := commit)
  {
    hide Run, Shaped, Heartbeat, ReceiveAppend, ResumeAppend, HandleAppend, Taken, Overlay;
    var b := Run(AsWritten, c, before);
    assert Looks(b.nodes[i], i, fs[i]) && Looks(b.nodes[p], p, fs[p]);
    var a, r := Whole(i, fs[i]), AppendReply(fs[i].term, true, NO_HINT);
    WholeIsSent(b.nodes[i], i, fs[i], p);
    var m := WholeIsTaken(b.nodes[p], p, fs[p], i, fs[i]);
    ShapedAt(b, i);
    ShapedAt(b, p);
    var more, d := Replicate(b, i, p, a, m, r);
    RunOn(c, before, more);
    acts := before + more;
    PushedShows(b, fs, i, p, d, m, Taken(fs[i], fs[p]), commit);
  }

  lemma PushedShows(b: Cluster, fs: seq<Face>, i: nat, p: nat, d: Cluster, m: Node, g: Face, commit: int)
    requires Shows(b, fs) && i < 5 && p < 5 && i != p && Shaped(d) && Looks(m, p, g)
    requires d.nodes == b.nodes[p := m][i := Told(b.nodes[i], p).(commit := commit)]
    ensures Shows(d, fs[p := g][i := fs[i].(commit := commit)])
  {
    assert ShapedNode(d, i);
    assert Looks(b.nodes[i], i, fs[i]);
    assert Looks(d.nodes[i], i, fs[i].(commit := commit));
    hide Looks, Shaped;
  }

  // ------------------------------------------------------------------ a refused request

  /** A new leader's first request: everything behind its first entry. */
  function Second(i: nat, f: Face): AppendArgs
    requires f.log != []
  {
    AppendArgs(f.term, i, 1, f.log[0].term, f.log[1..], f.commit)
  }

  /** A follower whose first entry is another one, or missing, sends the leader back to the start. */
  lemma SecondIsRefused(n: Node, i: nat, f: Face, m: Node, p: nat, g: Face)
    requires Looks(n, i, f) && Looks(m, p, g) && f.role == Leader && p < 5 && p != i && n.next[p] == 2
    requires f.stable == |f.log| > 0 && g.term <= f.term
    requires g.log != [] ==> g.log[0].term !in {f.log[0].term, 0}
    ensures Heartbeat(AsWritten, n, p) == (n, Send(Second(i, f)))
    ensures ReceiveAppend(m, Second(i, f))
            == Answered(BecomeFollower(m, f.term), AppendReply(f.term, false, 1))
    ensures HandleAppend(n, p, Second(i, f), AppendReply(f.term, false, 1)) == n.(next := n.next[p := 1])
  {
    assert n.log[1..|n.log|] == n.log[1..];
    if g.log != [] {
      var k, t := BecomeFollower(m, f.term), g.log[0].term;
      assert TermAt(k, 0) == 0 && BackOff(k, 0, t) == 1;
      assert BackOff(k, 1, t) == 1;
    }
  }

  lemma RefusedShows(c: Cluster, before: seq<Action>, fs: seq<Face>, i: nat, p: nat) returns (acts: seq<Action>)
    requires Reaches(c, before, fs) && i < 5 && p < 5 && i != p && fs[i].role == Leader
    requires fs[i].stable == |fs[i].log| > 0 && fs[p].term <= fs[i].term
    requires fs[p].log != [] ==> fs[p].log[0].term !in {fs[i].log[0].term, 0}
    requires Run(AsWritten, c, before).nodes[i].next[p] == 2
    ensures before <= acts && Reaches(c, acts, fs[p := fs[p].(term := fs[i].term, role := Follower)])
    ensures |Run(AsWritten, c, acts).nodes| == 5
    ensures var n := Run(AsWritten, c, before).nodes[i];
      Run(AsWritten, c, acts).nodes[i] == n.(next := n.next[p := 1])
  {
    hide Run, Shaped, Heartbeat, ReceiveAppend, ResumeAppend, HandleAppend;
    var b := Run(AsWritten, c, before);
    assert Looks(b.nodes[i], i, fs[i]) && Looks(b.nodes[p], p, fs[p]);
    SecondIsRefused(b.nodes[i], i, fs[i], b.nodes[p], p, fs[p]);
    ShapedAt(b, i);
    ShapedAt(b, p);
    var m := BecomeFollower(b.nodes[p], fs[i].term);
    var more, d := Replicate(b, i, p, Second(i, fs[i]), m, AppendReply(fs[i].term, false, 1));
    RunOn(c, before, more);
    acts := before + more;
    assert Looks(d.nodes[i], i, fs[i]);
    assert Looks(d.nodes[p], p, fs[p].(term := fs[i].term, role := Follower));
    hide Looks;
  }

  // ------------------------------------------------------------------ the run

  const A1 := Entry("a", 1, 1)
  const B1 := Entry("b", 1, 2)
  const X2 := Entry("x", 2, 1)
  const P3 := Entry("p", 3, 1)
  const Y4 := Entry("y", 4, 2)

  lemma TimeoutShows(c: Cluster, before: seq<Action>, fs: seq<Face>, i: nat) returns (acts: seq<Action>)
    requires Reaches(c, before, fs) && i < 5 && fs[i].role != Leader
    ensures before <= acts && Reaches(c, acts, fs[i := fs[i].(term := fs[i].term + 1, role := Candidate)])
  {
    hide Do, Run, Shaped, Peers;
    var b := Run(AsWritten, c, before);
    assert Looks(b.nodes[i], i, fs[i]);
    TimeoutAt(AsWritten, b, i);
    acts := StepShows(c, before, fs, Timeout(i), i, StartElection(b.nodes[i]),
                      fs[i].(term := fs[i].term + 1, role := Candidate));
  }

  function Idle(term: int): Face {
    Face(term, Follower, [], 0, 0)
  }

  lemma StartShows()
    ensures Reaches(Init(5), [], [Idle(0), Idle(0), Idle(0), Idle(0), Idle(0)])
  {
    S.RunShaped(AsWritten, 5, []);
  }

  /** Server 0 leads term 1 and appends two entries that reach nobody. */
  lemma FirstTerm() returns (acts: seq<Action>)
    ensures Reaches(Init(5), acts, [Face(1, Leader, [A1, B1], 0, 0), Idle(0), Idle(0), Idle(1), Idle(1)])
  {
    hide Reaches, Run;
    var c, fs := Init(5), [Idle(0), Idle(0), Idle(0), Idle(0), Idle(0)];
    StartShows();
    acts := ElectShows(c, [], fs, 0, 3, 4);
    fs := Elected(fs, 0, 3, 4);
    acts := CommandShows(c, acts, fs, 0, "a");
    assert [] + [A1] == [A1];
    fs := fs[0 := Face(1, Leader, [A1], 0, 0)];
    acts := CommandShows(c, acts, fs, 0, "b");
    assert [A1] + [B1] == [A1, B1];
    fs := fs[0 := Face(1, Leader, [A1, B1], 0, 0)];
    assert fs == [Face(1, Leader, [A1, B1], 0, 0), Idle(0), Idle(0), Idle(1), Idle(1)];
  }

  /** Server 1 leads term 2 and appends an entry that reaches nobody. */
  lemma SecondTerm() returns (acts: seq<Action>)
    ensures Reaches(Init(5), acts, [Face(1, Leader, [A1, B1], 0, 0), Face(2, Leader, [X2], 0, 0), Idle(0), Idle(2), Idle(2)])
  {
    hide Reaches, Run;
    var c := Init(5);
    var fs := [Face(1, Leader, [A1, B1], 0, 0), Idle(0), Idle(0), Idle(1), Idle(1)];
    acts := FirstTerm();
    acts := TimeoutShows(c, acts, fs, 1);
    fs := fs[1 := Face(1, Candidate, [], 0, 0)];
    acts := ElectShows(c, acts, fs, 1, 3, 4);
    fs := Elected(fs, 1, 3, 4);
    acts := CommandShows(c, acts, fs, 1, "x");
    assert [] + [X2] == [X2];
    fs := fs[1 := Face(2, Leader, [X2], 0, 0)];
    assert fs == [Face(1, Leader, [A1, B1], 0, 0), Face(2, Leader, [X2], 0, 0), Idle(0), Idle(2), Idle(2)];
  }

  /** A leader that has just started over with its peers, seen from one of them. */
  lemma ResetAt(n: Node, next: int, p: nat)
    requires Reset(n, next) && p < 5 && p != n.id
    ensures |n.next| == 5 && |n.matched| == 5 && n.next[p] == next && n.matched[p] == 0
  {
    assert Knows(n, p, next, 0);
  }

  lemma ResetSame(n: Node, m: Node, next: int)
    requires Reset(n, next) && m.id == n.id && m.next == n.next && m.matched == n.matched
    ensures Reset(m, next)
  {
    forall p: nat {:trigger Knows(m, p, next, 0)} | p < 5 && p != n.id ensures Knows(m, p, next, 0) {
      ResetAt(n, next, p);
    }
  }

  lemma ResetAll(n: Node, next: int)
    requires Reset(n, next)
    ensures |n.matched| == 5 ==> forall q :: 0 <= q < 5 && q != n.id ==> n.matched[q] == 0
  {
    forall q | 0 <= q < 5 && q != n.id && |n.matched| == 5 ensures n.matched[q] == 0 {
      ResetAt(n, next, q);
    }
  }

  lemma OverlayShort(g: seq<Entry>, l: seq<Entry>)
    requires |g| <= 2 && |l| <= 2 && (|g| > 0 && |l| > 0 ==> g[0].term != l[0].term)
    requires |g| > 1 && |l| > 1 ==> g[1].term != l[1].term
    ensures Overlay(g, l)
  {}

  /** The state after server 2 has led term 3 and committed. */
  function ThirdTermFaces(commit: int): seq<Face> {
    [Face(3, Follower, [P3, B1], 0, 2), Face(2, Leader, [X2], 0, 0), Face(3, Leader, [P3], commit, 1),
     Face(3, Follower, [P3], 0, 1), Idle(3)]
  }

  /** Server 2 is elected for term 3 and has its entry on disk. */
  lemma ThirdElection() returns (acts: seq<Action>)
    ensures Reaches(Init(5), acts, [Face(1, Leader, [A1, B1], 0, 0), Face(2, Leader, [X2], 0, 0),
                                    Face(3, Leader, [P3], 0, 1), Idle(3), Idle(3)])
    ensures Reset(Run(AsWritten, Init(5), acts).nodes[2], 1)
    ensures AskVote(VoteArgs(3, 2, 0, 0)) in Run(AsWritten, Init(5), acts).net
  {
    hide Run, Reset;
    var c := Init(5);
    var fs := [Face(1, Leader, [A1, B1], 0, 0), Face(2, Leader, [X2], 0, 0), Idle(0), Idle(2), Idle(2)];
    acts := SecondTerm();
    acts := TimeoutShows(c, acts, fs, 2);
    fs := fs[2 := Face(1, Candidate, [], 0, 0)];
    acts := TimeoutShows(c, acts, fs, 2);
    fs := fs[2 := Face(2, Candidate, [], 0, 0)];
    var n := Run(AsWritten, c, acts).nodes[2];
    assert Looks(n, 2, fs[2]);
    assert VoteRequest(StartElection(n)) == VoteArgs(3, 2, 0, 0);
    hide Reaches;
    acts := ElectShows(c, acts, fs, 2, 3, 4);
    fs := Elected(fs, 2, 3, 4);
    n := Run(AsWritten, c, acts).nodes[2];
    acts := CommandShows(c, acts, fs, 2, "p");
    assert [] + [P3] == [P3];
    fs := fs[2 := Face(3, Leader, [P3], 0, 0)];
    acts := SyncedShows(c, acts, fs, 2, 1);
    fs := fs[2 := Face(3, Leader, [P3], 0, 1)];
    assert fs == [Face(1, Leader, [A1, B1], 0, 0), Face(2, Leader, [X2], 0, 0),
                  Face(3, Leader, [P3], 0, 1), Idle(3), Idle(3)];
    ResetSame(n, Run(AsWritten, c, acts).nodes[2], 1);
  }

  /** Server 2 replicates to servers 0 and 3 and commits; server 0 keeps the stale entry behind. */
  lemma ThirdTerm() returns (acts: seq<Action>)
    ensures Reaches(Init(5), acts, ThirdTermFaces(1))
    ensures AskVote(VoteArgs(3, 2, 0, 0)) in Run(AsWritten, Init(5), acts).net
  {
    hide Run, Reset, HandleAppend, Overlay;
    var c := Init(5);
    var fs := [Face(1, Leader, [A1, B1], 0, 0), Face(2, Leader, [X2], 0, 0), Face(3, Leader, [P3], 0, 1), Idle(3), Idle(3)];
    acts := ThirdElection();
    var n := Run(AsWritten, c, acts).nodes[2];
    assert Looks(n, 2, fs[2]);
    ResetAll(n, 1);
    ResetAt(n, 1, 0);
    ResetAt(n, 1, 3);
    OverlayShort(fs[0].log, [P3]);
    OverlayShort([], [P3]);
    FirstAnswer(n, 2, fs[2], 0);
    acts := PushShows(c, acts, fs, 2, 0, 0);
    assert [P3] + [A1, B1][1..] == [P3, B1];
    fs := fs[0 := Face(3, Follower, [P3, B1], 0, 2)];
    n := Run(AsWritten, c, acts).nodes[2];
    assert Looks(n, 2, fs[2]);
    SecondAnswer(n, 2, fs[2], 3, 0);
    acts := PushShows(c, acts, fs, 2, 3, 1);
    fs := fs[3 := Face(3, Follower, [P3], 0, 1)][2 := Face(3, Leader, [P3], 1, 1)];
    assert fs == ThirdTermFaces(1);
  }

  /** The faces after server 1 has been voted into term 4 by servers 0 and 4. */
  function FourthTermFaces(first: seq<Entry>, second: seq<Entry>, last: seq<Entry>, commit: int): seq<Face> {
    [Face(4, Follower, first, 0, 2), Face(4, Leader, second, commit, if |second| > 1 then 2 else 0),
     Face(3, Leader, [P3], 1, 1), Face(3, Follower, [P3], 0, 1), Face(4, Follower, last, 0, |last|)]
  }

  /** Server 1 hears of term 3, and is then elected for term 4: server 0's last term is understated. */
  lemma FourthElection(before: seq<Action>) returns (acts: seq<Action>)
    requires Reaches(Init(5), before, ThirdTermFaces(1))
    requires AskVote(VoteArgs(3, 2, 0, 0)) in Run(AsWritten, Init(5), before).net
    ensures before <= acts && Reaches(Init(5), acts, FourthTermFaces([P3, B1], [X2], [], 0))
    ensures |Run(AsWritten, Init(5), acts).nodes| == 5 && Reset(Run(AsWritten, Init(5), acts).nodes[1], 2)
  {
    hide Run, Reset;
    var c, fs := Init(5), ThirdTermFaces(1);
    var b := Run(AsWritten, c, before);
    var a := VoteArgs(3, 2, 0, 0);
    assert Looks(b.nodes[1], 1, fs[1]);
    VoteAt(AsWritten, b, 1, a);
    acts := StepShows(c, before, fs, OnVote(1, a), 1, ReceiveVote(b.nodes[1], a).0, Face(3, Follower, [X2], 0, 0));
    fs := fs[1 := Face(3, Follower, [X2], 0, 0)];
    hide Reaches;
    acts := ElectShows(c, acts, fs, 1, 0, 4);
    fs := Elected(fs, 1, 0, 4);
    assert fs == FourthTermFaces([P3, B1], [X2], [], 0);
  }

  /** Server 1 appends another entry and replicates its log over what server 2 had committed. */
  lemma FourthTerm(before: seq<Action>) returns (acts: seq<Action>)
    requires Reaches(Init(5), before, FourthTermFaces([P3, B1], [X2], [], 0))
    requires |Run(AsWritten, Init(5), before).nodes| == 5 && Reset(Run(AsWritten, Init(5), before).nodes[1], 2)
    ensures before <= acts && Reaches(Init(5), acts, FourthTermFaces([X2, Y4], [X2, Y4], [], 0))
    ensures var n := Run(AsWritten, Init(5), acts).nodes[1];
      |n.next| == 5 && |n.matched| == 5 && n.next[4] == 2 && n.matched[4] == 0 && n.matched[0] == 2
  {
    hide Run, Reset, HandleAppend, Overlay;
    var c, fs := Init(5), FourthTermFaces([P3, B1], [X2], [], 0);
    var n := Run(AsWritten, c, before).nodes[1];
    acts := CommandShows(c, before, fs, 1, "y");
    assert [X2] + [Y4] == [X2, Y4];
    fs := fs[1 := Face(4, Leader, [X2, Y4], 0, 0)];
    acts := SyncedShows(c, acts, fs, 1, 2);
    fs := fs[1 := Face(4, Leader, [X2, Y4], 0, 2)];
    ResetSame(n, Run(AsWritten, c, acts).nodes[1], 2);
    n := Run(AsWritten, c, acts).nodes[1];
    assert Looks(n, 1, fs[1]);
    ResetAll(n, 2);
    ResetAt(n, 2, 0);
    ResetAt(n, 2, 4);
    acts := RefusedShows(c, acts, fs, 1, 0);
    fs := fs[0 := Face(4, Follower, [P3, B1], 0, 2)];
    n := Run(AsWritten, c, acts).nodes[1];
    OverlayShort([P3, B1], [X2, Y4]);
    assert Looks(n, 1, fs[1]);
    FirstAnswer(n, 1, fs[1], 0);
    acts := PushShows(c, acts, fs, 1, 0, 0);
    fs := fs[0 := Face(4, Follower, [X2, Y4], 0, 2)][1 := fs[1]];
    assert fs == FourthTermFaces([X2, Y4], [X2, Y4], [], 0);
  }

  lemma FourthCommit(before: seq<Action>) returns (acts: seq<Action>)
    requires Reaches(Init(5), before, FourthTermFaces([X2, Y4], [X2, Y4], [], 0))
    requires var b := Run(AsWritten, Init(5), before);
      && |b.nodes| == 5 && |b.nodes[1].next| == 5 && |b.nodes[1].matched| == 5
      && b.nodes[1].next[4] == 2 && b.nodes[1].matched[4] == 0 && b.nodes[1].matched[0] == 2
    ensures before <= acts && Reaches(Init(5), acts, FourthTermFaces([X2, Y4], [X2, Y4], [X2, Y4], 2))
  {
    hide Run, HandleAppend, Overlay;
    var c, fs := Init(5), FourthTermFaces([X2, Y4], [X2, Y4], [], 0);
    acts := RefusedShows(c, before, fs, 1, 4);
    fs := fs[4 := Idle(4)];
    var n := Run(AsWritten, c, acts).nodes[1];
    OverlayShort([], [X2, Y4]);
    assert Looks(n, 1, fs[1]);
    SecondAnswer(n, 1, fs[1], 4, 0);
    acts := PushShows(c, acts, fs, 1, 4, 2);
    fs := fs[4 := Face(4, Follower, [X2, Y4], 0, 2)][1 := Face(4, Leader, [X2, Y4], 2, 2)];
    assert fs == FourthTermFaces([X2, Y4], [X2, Y4], [X2, Y4], 2);
  }

  lemma ShownCommit(c: Cluster, fs: seq<Face>, i: nat, k: int, e: Entry)
    requires Shows(c, fs) && i < 5 && 0 < k <= fs[i].commit && k <= |fs[i].log| && fs[i].log[k - 1] == e
    ensures S.CommittedOn(c, i, k, e)
  {
    assert Looks(c.nodes[i], i, fs[i]);
    assert Full(c.nodes[i]) == c.nodes[i].log;
  }

  /**
    As written, the cluster is not safe. There is a run of five servers at some point of which server 2
    has committed an entry at index 1; later a server without that entry is elected; and at the end that
    server has committed another entry at index 1.
   */
  lemma OverwriteLosesCommitted() returns (acts: seq<Action>, m: nat, k: nat)
    ensures m <= k <= |acts|
    ensures S.CommittedOn(Run(AsWritten, Init(5), acts[..m]), 2, 1, P3)
    ensures var d := Run(AsWritten, Init(5), acts[..k]);
      |d.nodes| == 5 && d.nodes[1].role == Leader && d.nodes[1].term > d.nodes[2].term && Full(d.nodes[1]) == [X2]
    ensures S.CommittedOn(Run(AsWritten, Init(5), acts), 1, 1, X2)
    ensures S.CommittedOn(Run(AsWritten, Init(5), acts), 2, 1, P3)
  {
    hide Run;
    var first := ThirdTerm();
    var second := FourthElection(first);
    acts := FourthTerm(second);
    acts := FourthCommit(acts);
    m, k := |first|, |second|;
    assert acts[..m] == first && acts[..k] == second;
    ShownCommit(Run(AsWritten, Init(5), first), ThirdTermFaces(1), 2, 1, P3);
    var fs := FourthTermFaces([X2, Y4], [X2, Y4], [X2, Y4], 2);
    ShownCommit(Run(AsWritten, Init(5), acts), fs, 1, 1, X2);
    ShownCommit(Run(AsWritten, Init(5), acts), fs, 2, 1, P3);
    var d := Run(AsWritten, Init(5), second);
    assert Looks(d.nodes[1], 1, FourthTermFaces([P3, B1], [X2], [], 0)[1]);
    assert Looks(d.nodes[2], 2, FourthTermFaces([P3, B1], [X2], [], 0)[2]);
  }
}
