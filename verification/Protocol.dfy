/**
  The safety argument of Raft on its own: nodes with full logs, and no network, snapshots or indices.

  Besides the nodes, the state carries a history: who led each term and with which log (reigns),
  who voted for whom (votes), which length of the leader's log a node is known to hold (acks), and
  which lengths a leader committed (commits). No action reads the history to decide what a node does.
  Module Cluster shows that every step of the actual handlers is a sequence of these actions.
 */
module Protocol {
  import opened RaftTypes

  datatype PNode = PNode(term: int, vote: int, role: Role, log: seq<Entry>, commit: int)

  /** A term that got a leader: the log it was elected with, its log so far, and its voters. */
  datatype Reign = Reign(node: nat, start: seq<Entry>, log: seq<Entry>, voters: set<nat>)
  type Reigns = map<int, Reign>

  datatype Vote = Vote(term: int, voter: nat, cand: nat)
  datatype Ack = Ack(term: int, node: nat, len: int)
  datatype Commit = Commit(term: int, len: int)

  datatype History = History(reigns: Reigns, votes: set<Vote>, acks: set<Ack>, commits: set<Commit>)
  datatype State = State(nodes: seq<PNode>, h: History)

  /** Entry e stands at position p of log f. */
  predicate Has(f: seq<Entry>, p: int, e: Entry) {
    0 <= p < |f| && f[p] == e
  }

  /** A reign with entry e at position p, and what follows it, taken back. */
  function Cut(g: Reign, p: nat, e: Entry): Reign {
    if Has(g.log, p, e) then g.(log := g.log[..p], start := if p < |g.start| then g.start[..p] else g.start) else g
  }

  /** The record after a server has given up its unsent entry e at position p: as if it had never been appended. */
  function Forget(r: Reigns, p: nat, e: Entry): Reigns {
    map t | t in r :: Cut(r[t], p, e)
  }

  // ------------------------------------------------------------------ elections

  ghost predicate VotesOk(s: State) {
    && (forall v <- s.h.votes ::
          && v.voter < |s.nodes| && v.cand < |s.nodes|
          && v.term <= s.nodes[v.cand].term
          && v.term <= s.nodes[v.voter].term
          && (v.term == s.nodes[v.voter].term ==> s.nodes[v.voter].vote == v.cand))
    && (forall v <- s.h.votes, w <- s.h.votes :: v.term == w.term && v.voter == w.voter ==> v.cand == w.cand)
  }

  ghost predicate ReignsOk(s: State) {
    forall t <- s.h.reigns ::
      var r := s.h.reigns[t];
      && r.node < |s.nodes|
      && 0 <= t <= s.nodes[r.node].term
      && (t == s.nodes[r.node].term ==> s.nodes[r.node].role != Candidate)
      && IsQuorum(r.voters, |s.nodes|)
      && (forall v <- r.voters :: Vote(t, v, r.node) in s.h.votes)
  }

  ghost predicate RolesOk(s: State) {
    forall i :: 0 <= i < |s.nodes| ==>
      var n := s.nodes[i];
      && 0 <= n.term
      && (n.role == Candidate ==> Vote(n.term, i, i) in s.h.votes)
      && (n.role == Leader ==> n.term in s.h.reigns && s.h.reigns[n.term].node == i)
  }

  /** What elections alone keep, whatever happens to the logs. */
  ghost predicate VoteInv(s: State) {
    VotesOk(s) && ReignsOk(s) && RolesOk(s)
  }

  // ------------------------------------------------------------------ logs

  /** Position j of term t's leader log was appended by that leader itself. */
  ghost predicate Own(r: Reigns, t: int, j: int) {
    t in r && |r[t].start| < j <= |r[t].log|
  }

  /** The first j entries of term t's leader log. */
  ghost function Line(r: Reigns, t: int, j: int): seq<Entry>
    requires Own(r, t, j)
  {
    r[t].log[..j]
  }

  /** Every prefix of f that ends with an entry of term t is a prefix of term t's leader log. */
  ghost predicate Rooted(r: Reigns, f: seq<Entry>) {
    forall k :: 0 <= k < |f| ==> RootedAt(r, f, k)
  }

  ghost predicate RootedAt(r: Reigns, f: seq<Entry>, k: int)
    requires 0 <= k < |f|
  {
    f[k].term in r && f[..k + 1] <= r[f[k].term].log
  }

  /** Some leader after term t, up to term hi, was elected without the first j entries of term t. */
  ghost predicate Lost(r: Reigns, t: int, j: int, hi: int)
    requires Own(r, t, j)
  {
    exists w :: t < w <= hi && Misses(r, t, j, w)
  }

  ghost predicate Misses(r: Reigns, t: int, j: int, w: int)
    requires Own(r, t, j)
  {
    w in r && !(Line(r, t, j) <= r[w].start)
  }

  /** Log f holds the first j entries of term t, unless a later leader up to term hi never had them. */
  ghost predicate Kept(r: Reigns, t: int, j: int, f: seq<Entry>, hi: int)
    requires Own(r, t, j)
  {
    Line(r, t, j) <= f || Lost(r, t, j, hi)
  }

  ghost predicate AllKept(r: Reigns, a: Ack, f: seq<Entry>, hi: int) {
    forall j {:trigger Kept(r, a.term, j, f, hi)} ::
      Own(r, a.term, j) && j <= a.len ==> Kept(r, a.term, j, f, hi)
  }

  ghost predicate LineOk(r: Reigns, t: int)
    requires t in r
  {
    && r[t].start <= r[t].log
    && (forall k :: 0 <= k < |r[t].start| ==> r[t].start[k].term < t)
    && (forall k :: |r[t].start| <= k < |r[t].log| ==> r[t].log[k].term == t)
    && Rooted(r, r[t].log)
  }

  ghost predicate LinesOk(r: Reigns) {
    forall t <- r :: LineOk(r, t)
  }

  ghost predicate LogOk(r: Reigns, n: PNode) {
    && Rooted(r, n.log)
    && (forall k :: 0 <= k < |n.log| ==> n.log[k].term <= n.term)
    && (n.role == Candidate ==> forall k :: 0 <= k < |n.log| ==> n.log[k].term < n.term)
    && (n.role == Leader ==> n.term in r && n.log == r[n.term].log)
  }

  ghost predicate LogsOk(s: State) {
    forall i :: 0 <= i < |s.nodes| ==> LogOk(s.h.reigns, s.nodes[i])
  }

  ghost predicate AckOk(s: State, a: Ack) {
    && a.node < |s.nodes|
    && a.term in s.h.reigns && a.len <= |s.h.reigns[a.term].log|
    && a.term <= s.nodes[a.node].term
    && AllKept(s.h.reigns, a, s.nodes[a.node].log, s.nodes[a.node].term)
  }

  ghost predicate AcksOk(s: State) {
    forall a <- s.h.acks :: AckOk(s, a)
  }

  ghost predicate Standing(s: State, c: nat, u: int) {
    c < |s.nodes| && s.nodes[c].role == Candidate && s.nodes[c].term == u
  }

  /** A candidate holds what its voters had acknowledged in earlier terms. */
  ghost predicate CandidatesOk(s: State) {
    forall v <- s.h.votes, a <- s.h.acks ::
      Standing(s, v.cand, v.term) && a.node == v.voter && a.term < v.term ==>
        AllKept(s.h.reigns, a, s.nodes[v.cand].log, v.term)
  }

  /** A leader was elected with what its voters had acknowledged in earlier terms. */
  ghost predicate ElectedOk(s: State) {
    forall u, a {:trigger ElectedWith(s.h, u, a)} :: ElectedWith(s.h, u, a)
  }

  ghost predicate ElectedWith(h: History, u: int, a: Ack) {
    u in h.reigns && a in h.acks && a.node in h.reigns[u].voters && a.term < u ==>
      AllKept(h.reigns, a, h.reigns[u].start, u - 1)
  }

  ghost predicate Acked(h: History, t: int, v: nat, k: int) {
    exists a <- h.acks :: a.term == t && a.node == v && a.len >= k
  }

  ghost predicate AckedByAll(h: History, t: int, q: set<nat>, k: int) {
    forall v <- q :: Acked(h, t, v, k)
  }

  ghost predicate CommitsOk(s: State) {
    forall c <- s.h.commits ::
      && Own(s.h.reigns, c.term, c.len)
      && (exists q: set<nat> :: IsQuorum(q, |s.nodes|) && AckedByAll(s.h, c.term, q, c.len))
  }

  /** p is part of what a leader of a term up to hi committed. */
  ghost predicate Settled(h: History, p: seq<Entry>, hi: int) {
    p == [] || exists c <- h.commits :: SettledBy(h, c, p, hi)
  }

  ghost predicate SettledBy(h: History, c: Commit, p: seq<Entry>, hi: int) {
    c.term <= hi && Own(h.reigns, c.term, c.len) && p <= Line(h.reigns, c.term, c.len)
  }

  ghost predicate CommitIndicesOk(s: State) {
    forall i :: 0 <= i < |s.nodes| ==>
      && 0 <= s.nodes[i].commit <= |s.nodes[i].log|
      && Settled(s.h, s.nodes[i].log[..s.nodes[i].commit], s.nodes[i].term)
  }

  /** What replication keeps, given what elections keep. */
  ghost predicate LogInv(s: State) {
    && LinesOk(s.h.reigns) && LogsOk(s) && AcksOk(s) && CandidatesOk(s) && ElectedOk(s)
    && CommitsOk(s) && CommitIndicesOk(s)
  }

  ghost predicate Inv(s: State) {
    VoteInv(s) && LogInv(s)
  }

  // ------------------------------------------------------------------ what the invariants give

  /** Leader completeness (section 5.4.3 of the extended Raft paper). */
  lemma {:induction false} LeaderCompleteness(s: State, c: Commit, u: int)
    requires Inv(s) && c in s.h.commits && u in s.h.reigns && c.term < u
    ensures Line(s.h.reigns, c.term, c.len) <= s.h.reigns[u].start
    decreases u - c.term
  {
    var q: set<nat> :| IsQuorum(q, |s.nodes|) && AckedByAll(s.h, c.term, q, c.len);
    var v := QuorumsMeet(q, s.h.reigns[u].voters, |s.nodes|);
    assert Acked(s.h, c.term, v, c.len);
    var a :| a in s.h.acks && a.term == c.term && a.node == v && a.len >= c.len;
    assert ElectedWith(s.h, u, a);
    assert Kept(s.h.reigns, c.term, c.len, s.h.reigns[u].start, u - 1);
    if !(Line(s.h.reigns, c.term, c.len) <= s.h.reigns[u].start) {
      var w :| c.term < w <= u - 1 && Misses(s.h.reigns, c.term, c.len, w);
      LeaderCompleteness(s, c, w);
      assert false;
    }
  }

  /** Every leader from the committing term on has the committed entries. */
  lemma SettledInReign(s: State, p: seq<Entry>, hi: int, u: int)
    requires Inv(s) && Settled(s.h, p, hi) && u in s.h.reigns && hi <= u
    ensures p <= s.h.reigns[u].log
  {
    if p != [] {
      var c :| c in s.h.commits && SettledBy(s.h, c, p, hi);
      CommittedInReign(s, c, u);
    }
  }

  lemma CommittedInReign(s: State, c: Commit, u: int)
    requires Inv(s) && c in s.h.commits && u in s.h.reigns && c.term <= u
    ensures Own(s.h.reigns, c.term, c.len) && Line(s.h.reigns, c.term, c.len) <= s.h.reigns[u].log
  {
    if c.term < u {
      LeaderCompleteness(s, c, u);
    }
    StartInLog(s, u);
  }

  lemma StartInLog(s: State, u: int)
    requires LinesOk(s.h.reigns) && u in s.h.reigns
    ensures s.h.reigns[u].start <= s.h.reigns[u].log
  {
    assert LineOk(s.h.reigns, u);
  }

  /** Two committed prefixes never disagree. */
  lemma SettledCompare(s: State, p: seq<Entry>, q: seq<Entry>, hi: int, hj: int)
    requires Inv(s) && Settled(s.h, p, hi) && Settled(s.h, q, hj)
    ensures p <= q || q <= p
  {
    if p != [] && q != [] {
      var c :| c in s.h.commits && SettledBy(s.h, c, p, hi);
      var d :| d in s.h.commits && SettledBy(s.h, d, q, hj);
      var u := if c.term <= d.term then d.term else c.term;
      assert Settled(s.h, p, c.term) && Settled(s.h, q, d.term);
      SettledInReign(s, p, c.term, u);
      SettledInReign(s, q, d.term, u);
      PrefixesCompare(p, q, s.h.reigns[u].log);
    }
  }

  /** Log matching (section 5.3): equal terms at a position mean equal logs up to that position. */
  lemma LogMatching(r: Reigns, f: seq<Entry>, g: seq<Entry>, k: nat)
    requires Rooted(r, f) && Rooted(r, g)
    requires k < |f| && k < |g| && f[k].term == g[k].term
    ensures f[..k + 1] == g[..k + 1]
  {
    assert RootedAt(r, f, k) && RootedAt(r, g, k);
    var l := r[f[k].term].log;
    assert f[..k + 1] == l[..k + 1] && g[..k + 1] == l[..k + 1];
  }

  lemma RootedPrefix(r: Reigns, f: seq<Entry>, k: nat)
    requires Rooted(r, f) && k <= |f|
    ensures Rooted(r, f[..k])
  {
    forall j | 0 <= j < k ensures RootedAt(r, f[..k], j) {
      assert RootedAt(r, f, j);
      assert f[..k][..j + 1] == f[..j + 1];
    }
  }

  // ------------------------------------------------------------------ the history only grows, unless entries are given up

  /** What was committed stays committed. */
  ghost predicate Remembers(h: History, h': History) {
    forall p, hi {:trigger Settled(h', p, hi)} {:trigger Settled(h, p, hi)} :: Settled(h, p, hi) ==> Settled(h', p, hi)
  }

  ghost predicate Extends(r: Reigns, r': Reigns) {
    forall t <- r ::
      && t in r'
      && r[t].node == r'[t].node && r[t].start == r'[t].start && r[t].voters == r'[t].voters
      && r[t].log <= r'[t].log
  }

  lemma OwnStays(r: Reigns, r': Reigns, t: int, j: int)
    requires Extends(r, r') && Own(r, t, j)
    ensures Own(r', t, j) && Line(r', t, j) == Line(r, t, j)
  {
    assert r[t].log == r'[t].log[..|r[t].log|];
  }

  lemma KeptStays(r: Reigns, r': Reigns, t: int, j: int, f: seq<Entry>, hi: int)
    requires Extends(r, r') && Own(r, t, j) && Kept(r, t, j, f, hi)
    ensures Own(r', t, j) && Kept(r', t, j, f, hi)
  {
    OwnStays(r, r', t, j);
    if Lost(r, t, j, hi) {
      var w :| t < w <= hi && Misses(r, t, j, w);
      assert Misses(r', t, j, w);
    }
  }

  lemma AllKeptStays(r: Reigns, r': Reigns, a: Ack, f: seq<Entry>, hi: int)
    requires Extends(r, r') && AllKept(r, a, f, hi)
    requires a.term in r && a.len <= |r[a.term].log|
    ensures AllKept(r', a, f, hi)
  {
    forall j | Own(r', a.term, j) && j <= a.len ensures Kept(r', a.term, j, f, hi) {
      assert Own(r, a.term, j);
      KeptStays(r, r', a.term, j, f, hi);
    }
  }

  lemma KeptLater(r: Reigns, a: Ack, f: seq<Entry>, hi: int, hi': int)
    requires AllKept(r, a, f, hi) && hi <= hi'
    ensures AllKept(r, a, f, hi')
  {
    forall j | Own(r, a.term, j) && j <= a.len ensures Kept(r, a.term, j, f, hi') {
      assert Kept(r, a.term, j, f, hi);
    }
  }

  lemma RootedStays(r: Reigns, r': Reigns, f: seq<Entry>)
    requires Extends(r, r') && Rooted(r, f)
    ensures Rooted(r', f)
  {
    forall k | 0 <= k < |f| ensures RootedAt(r', f, k) {
      assert RootedAt(r, f, k);
    }
  }

  lemma SettledStays(h: History, h': History, p: seq<Entry>, hi: int, hi': int)
    requires Extends(h.reigns, h'.reigns) && h.commits <= h'.commits && hi <= hi'
    requires Settled(h, p, hi)
    ensures Settled(h', p, hi')
  {
    if p != [] {
      var c :| c in h.commits && SettledBy(h, c, p, hi);
      OwnStays(h.reigns, h'.reigns, c.term, c.len);
      assert SettledBy(h', c, p, hi');
    }
  }

  lemma SettledPrefix(h: History, p: seq<Entry>, q: seq<Entry>, hi: int)
    requires Settled(h, q, hi) && p <= q
    ensures Settled(h, p, hi)
  {
    if p != [] {
      var c :| c in h.commits && SettledBy(h, c, q, hi);
      assert SettledBy(h, c, p, hi);
    }
  }
}
