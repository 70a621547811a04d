/**
  The actions of the protocol and what they keep. Each action is a function on the state; a lemma
  NameVotes shows it keeps VoteInv, a lemma NameLogs that it keeps LogInv.
 */
module ProtocolSteps {
  import opened RaftTypes
  import opened Protocol

  // ------------------------------------------------------------------ the actions

  function Put(s: State, i: nat, n: PNode): State
    requires i < |s.nodes|
  {
    s.(nodes := s.nodes[i := n])
  }

  /** Node i moves to term t as a follower, or steps down within its term. */
  function Follow(s: State, i: nat, t: int): State
    requires i < |s.nodes| && s.nodes[i].term <= t
  {
    var n := s.nodes[i];
    Put(s, i, n.(term := t, vote := if t > n.term then -1 else n.vote, role := Follower))
  }

  /** Node i starts an election. */
  function Stand(s: State, i: nat): State
    requires i < |s.nodes|
  {
    var n := s.nodes[i];
    Put(s, i, n.(term := n.term + 1, vote := i, role := Candidate))
    .(h := s.h.(votes := s.h.votes + {Vote(n.term + 1, i, i)}))
  }

  /** Node v votes for node c in v's current term. */
  function Grant(s: State, v: nat, c: nat): State
    requires v < |s.nodes|
  {
    Put(s, v, s.nodes[v].(vote := c)).(h := s.h.(votes := s.h.votes + {Vote(s.nodes[v].term, v, c)}))
  }

  /** Candidate c becomes the leader of its term with the votes of q. */
  function Elect(s: State, c: nat, q: set<nat>): State
    requires c < |s.nodes|
  {
    var n := s.nodes[c];
    Put(s, c, n.(role := Leader))
    .(h := s.h.(reigns := s.h.reigns[n.term := Reign(c, n.log, n.log, q)]))
  }

  /** Leader i appends an entry. */
  function Append(s: State, i: nat, e: Entry): State
    requires i < |s.nodes| && s.nodes[i].term in s.h.reigns
  {
    var n := s.nodes[i];
    var l := n.log + [e];
    Put(s, i, n.(log := l))
    .(h := s.h.(reigns := s.h.reigns[n.term := s.h.reigns[n.term].(log := l)]))
  }

  /** Follower i changes its log to f after hearing from the leader of its term. */
  function Adopt(s: State, i: nat, f: seq<Entry>): State
    requires i < |s.nodes|
  {
    Put(s, i, s.nodes[i].(log := f))
  }

  /** Node i gives up its log from position p on. */
  function GiveUp(s: State, i: nat, p: nat): State
    requires i < |s.nodes| && p < |s.nodes[i].log|
  {
    var n := s.nodes[i];
    Put(s, i, n.(log := n.log[..p])).(h := s.h.(reigns := Forget(s.h.reigns, p, n.log[p])))
  }

  /** Node i is known to hold the first m entries of its term's leader log. */
  function Acknowledge(s: State, i: nat, m: int): State
    requires i < |s.nodes|
  {
    s.(h := s.h.(acks := s.h.acks + {Ack(s.nodes[i].term, i, m)}))
  }

  /** Leader i commits its first k entries. */
  function LeadCommit(s: State, i: nat, k: int): State
    requires i < |s.nodes|
  {
    Put(s, i, s.nodes[i].(commit := k)).(h := s.h.(commits := s.h.commits + {Commit(s.nodes[i].term, k)}))
  }

  /** Node i learns that its first k entries are committed. */
  function LearnCommit(s: State, i: nat, k: int): State
    requires i < |s.nodes|
  {
    Put(s, i, s.nodes[i].(commit := k))
  }

  // ------------------------------------------------------------------ their conditions

  function EndTerm(f: seq<Entry>): int {
    if f == [] then 0 else f[|f| - 1].term
  }

  /** A log with this last term and length is at least as up-to-date as the voter's log v (section 5.4.1). */
  predicate UpToDate(lastTerm: int, len: int, v: seq<Entry>) {
    lastTerm > EndTerm(v) || (lastTerm == EndTerm(v) && len >= |v|)
  }

  /**
    What a candidate of term u with log f may say of it: its last term and length, or the last term of a
    log it had until it gave up unsent entries, of which f still holds what that term's record has left.
   */
  ghost predicate Claims(r: Reigns, lastTerm: int, len: int, f: seq<Entry>, u: int) {
    (len == |f| && lastTerm == EndTerm(f)) || (lastTerm < u && lastTerm in r && r[lastTerm].log <= f)
  }

  /** f' is f, or a prefix of the leader log l that keeps whatever f shared with l. */
  ghost predicate Merges(f: seq<Entry>, f': seq<Entry>, l: seq<Entry>) {
    f' == f || (f' <= l && forall k :: 0 <= k <= |f| && k <= |l| && f[..k] == l[..k] ==> f[..k] <= f')
  }

  ghost predicate CanGrant(s: State, v: nat, c: nat) {
    && v < |s.nodes| && c < |s.nodes|
    && (s.nodes[v].vote == -1 || s.nodes[v].vote == c)
    && s.nodes[v].term <= s.nodes[c].term
    && (s.nodes[v].role == Candidate ==> s.nodes[v].vote == v)
  }

  ghost predicate CanElect(s: State, c: nat, q: set<nat>) {
    && c < |s.nodes| && s.nodes[c].role == Candidate
    && IsQuorum(q, |s.nodes|)
    && (forall v <- q :: Vote(s.nodes[c].term, v, c) in s.h.votes)
  }

  // ------------------------------------------------------------------ elections

  /** Logs, acks and commits may change without touching the election invariant. */
  ghost predicate SameStandings(s: State, s': State) {
    && |s.nodes| == |s'.nodes|
    && (forall i :: 0 <= i < |s.nodes| ==>
          && s'.nodes[i].term == s.nodes[i].term
          && s'.nodes[i].vote == s.nodes[i].vote
          && s'.nodes[i].role == s.nodes[i].role)
    && s.h.votes == s'.h.votes
    && (forall t :: t in s'.h.reigns <==> t in s.h.reigns)
    && (forall t <- s.h.reigns ::
          && s'.h.reigns[t].node == s.h.reigns[t].node
          && s'.h.reigns[t].voters == s.h.reigns[t].voters)
  }

  lemma StandingsVotes(s: State, s': State)
    requires VoteInv(s) && SameStandings(s, s')
    ensures VoteInv(s')
  {}

  lemma FollowVotes(s: State, i: nat, t: int)
    requires VoteInv(s) && i < |s.nodes| && s.nodes[i].term <= t
    ensures VoteInv(Follow(s, i, t))
  {}

  lemma StandVotes(s: State, i: nat)
    requires VoteInv(s) && i < |s.nodes| && s.nodes[i].role != Leader
    ensures VoteInv(Stand(s, i))
  {
    var s' := Stand(s, i);
    assert VotesOk(s') by {
      forall v <- s'.h.votes, w <- s'.h.votes | v.term == w.term && v.voter == w.voter
        ensures v.cand == w.cand
      {
        assert forall x <- s.h.votes :: x.voter == i ==> x.term <= s.nodes[i].term;
      }
    }
    assert ReignsOk(s');
    assert RolesOk(s');
  }

  lemma GrantVotes(s: State, v: nat, c: nat)
    requires VoteInv(s) && CanGrant(s, v, c)
    ensures VoteInv(Grant(s, v, c))
  {}

  /** No two candidates can both reach a majority in one term. */
  lemma NoReignYet(s: State, c: nat, q: set<nat>)
    requires VoteInv(s) && CanElect(s, c, q)
    ensures s.nodes[c].term !in s.h.reigns
  {
    var t := s.nodes[c].term;
    if t in s.h.reigns {
      var v := QuorumsMeet(q, s.h.reigns[t].voters, |s.nodes|);
      assert false;
    }
  }

  lemma ElectVotes(s: State, c: nat, q: set<nat>)
    requires VoteInv(s) && CanElect(s, c, q)
    ensures VoteInv(Elect(s, c, q))
  {
    NoReignYet(s, c, q);
  }

  // ------------------------------------------------------------------ what a step leaves alone

  /** Candidates, their votes and the acks are as before. */
  lemma FrameCandidates(s: State, s': State)
    requires CandidatesOk(s) && |s.nodes| == |s'.nodes|
    requires s'.h.votes == s.h.votes && s'.h.acks == s.h.acks && s'.h.reigns == s.h.reigns
    requires forall i :: 0 <= i < |s.nodes| ==>
               && (s'.nodes[i].role == Candidate ==> s.nodes[i].role == Candidate)
               && (s'.nodes[i].role == Candidate ==> s'.nodes[i].term == s.nodes[i].term)
               && (s'.nodes[i].role == Candidate ==> s'.nodes[i].log == s.nodes[i].log)
    ensures CandidatesOk(s')
  {
    forall x <- s'.h.votes, a <- s'.h.acks
      | Standing(s', x.cand, x.term) && a.node == x.voter && a.term < x.term
      ensures AllKept(s'.h.reigns, a, s'.nodes[x.cand].log, x.term)
    {
      assert Standing(s, x.cand, x.term);
    }
  }

  lemma FrameAcks(s: State, s': State)
    requires AcksOk(s) && |s.nodes| == |s'.nodes|
    requires s'.h.acks == s.h.acks && s'.h.reigns == s.h.reigns
    requires forall i :: 0 <= i < |s.nodes| ==>
               s'.nodes[i].log == s.nodes[i].log && s'.nodes[i].term == s.nodes[i].term
    ensures AcksOk(s')
  {
    forall a <- s'.h.acks ensures AckOk(s', a) {
      assert AckOk(s, a);
    }
  }

  lemma FrameLogs(s: State, s': State)
    requires LogsOk(s) && |s.nodes| == |s'.nodes| && s'.h.reigns == s.h.reigns
    requires forall i :: 0 <= i < |s.nodes| ==>
               && s'.nodes[i].log == s.nodes[i].log && s'.nodes[i].term == s.nodes[i].term
               && s'.nodes[i].role == s.nodes[i].role
    ensures LogsOk(s')
  {
    forall i | 0 <= i < |s.nodes| ensures LogOk(s'.h.reigns, s'.nodes[i]) {
      assert LogOk(s.h.reigns, s.nodes[i]);
    }
  }

  lemma FrameVotes(s: State, s': State)
    requires VoteInv(s) && |s.nodes| == |s'.nodes|
    requires s'.h.votes == s.h.votes && s'.h.reigns == s.h.reigns
    requires forall i :: 0 <= i < |s.nodes| ==>
               && s'.nodes[i].vote == s.nodes[i].vote && s'.nodes[i].term == s.nodes[i].term
               && s'.nodes[i].role == s.nodes[i].role
    ensures VoteInv(s')
  {
    StandingsVotes(s, s');
  }

  lemma FrameCommits(s: State, s': State)
    requires CommitsOk(s) && |s.nodes| == |s'.nodes| && s'.h == s.h
    ensures CommitsOk(s')
  {}

  lemma FrameElected(s: State, s': State)
    requires ElectedOk(s) && s'.h.reigns == s.h.reigns && s'.h.acks == s.h.acks
    ensures ElectedOk(s')
  {
    forall u, a ensures ElectedWith(s'.h, u, a) {
      assert ElectedWith(s.h, u, a);
    }
  }

  ghost predicate AcksWithin(h: History) {
    forall a <- h.acks :: a.term in h.reigns && a.len <= |h.reigns[a.term].log|
  }

  lemma AcksAreWithin(s: State)
    requires AcksOk(s)
    ensures AcksWithin(s.h)
  {
    forall a <- s.h.acks ensures a.term in s.h.reigns && a.len <= |s.h.reigns[a.term].log| {
      assert AckOk(s, a);
    }
  }

  /** Acks of node i in its current term do not concern leaders it voted for later. */
  lemma ElectedStays(s: State, h': History, i: nat, t: int, a: Ack)
    requires VoteInv(s) && ElectedOk(s) && AcksWithin(s.h) && i < |s.nodes|
    requires Extends(s.h.reigns, h'.reigns)
    requires a in s.h.acks || (a.node == i && a.term == s.nodes[i].term)
    requires t in s.h.reigns && a.node in s.h.reigns[t].voters && a.term < t
    ensures a in s.h.acks && AllKept(h'.reigns, a, h'.reigns[t].start, t - 1)
  {
    assert Vote(t, a.node, s.h.reigns[t].node) in s.h.votes;
    assert ElectedWith(s.h, t, a);
    AllKeptStays(s.h.reigns, h'.reigns, a, s.h.reigns[t].start, t - 1);
  }

  // ------------------------------------------------------------------ logs: following

  lemma FollowAcks(s: State, i: nat, t: int)
    requires AcksOk(s) && i < |s.nodes| && s.nodes[i].term <= t
    ensures AcksOk(Follow(s, i, t))
  {
    var s' := Follow(s, i, t);
    forall a <- s'.h.acks ensures AckOk(s', a) {
      assert AckOk(s, a);
      if a.node == i {
        KeptLater(s.h.reigns, a, s.nodes[i].log, s.nodes[i].term, t);
      }
    }
  }

  lemma FollowLogs(s: State, i: nat, t: int)
    requires Inv(s) && i < |s.nodes| && s.nodes[i].term <= t
    ensures LogInv(Follow(s, i, t))
  {
    var s' := Follow(s, i, t);
    FollowAcks(s, i, t);
    FrameCandidates(s, s');
    FrameElected(s, s');
    FrameCommits(s, s');
    IndicesStay(s, s');
    FollowRooted(s, i, t);
  }

  lemma FollowRooted(s: State, i: nat, t: int)
    requires LogsOk(s) && i < |s.nodes| && s.nodes[i].term <= t
    ensures LogsOk(Follow(s, i, t))
  {
    forall j | 0 <= j < |s.nodes| ensures LogOk(s.h.reigns, Follow(s, i, t).nodes[j]) {
      assert LogOk(s.h.reigns, s.nodes[j]);
    }
  }

  // ------------------------------------------------------------------ logs: elections

  lemma StandAcks(s: State, i: nat)
    requires AcksOk(s) && i < |s.nodes|
    ensures AcksOk(Stand(s, i))
  {
    var s' := Stand(s, i);
    forall a <- s'.h.acks ensures AckOk(s', a) {
      assert AckOk(s, a);
      if a.node == i {
        KeptLater(s.h.reigns, a, s.nodes[i].log, s.nodes[i].term, s.nodes[i].term + 1);
      }
    }
  }

  lemma StandCandidates(s: State, i: nat)
    requires VoteInv(s) && AcksOk(s) && CandidatesOk(s) && i < |s.nodes|
    ensures CandidatesOk(Stand(s, i))
  {
    var s' := Stand(s, i);
    var u := s.nodes[i].term + 1;
    forall v <- s'.h.votes, a <- s'.h.acks
      | Standing(s', v.cand, v.term) && a.node == v.voter && a.term < v.term
      ensures AllKept(s'.h.reigns, a, s'.nodes[v.cand].log, v.term)
    {
      if v.cand == i {
        assert v == Vote(u, i, i);
        assert AckOk(s, a);
        KeptLater(s.h.reigns, a, s.nodes[i].log, s.nodes[i].term, u);
      } else {
        assert Standing(s, v.cand, v.term);
      }
    }
  }

  lemma StandLogs(s: State, i: nat)
    requires Inv(s) && i < |s.nodes| && s.nodes[i].role != Leader
    ensures LogInv(Stand(s, i))
  {
    var s' := Stand(s, i);
    StandAcks(s, i);
    StandCandidates(s, i);
    FrameElected(s, s');
    CommitsStay(s, s');
    IndicesStay(s, s');
    StandRooted(s, i);
  }

  lemma StandRooted(s: State, i: nat)
    requires LogsOk(s) && i < |s.nodes|
    ensures LogsOk(Stand(s, i))
  {
    forall j | 0 <= j < |s.nodes| ensures LogOk(s.h.reigns, Stand(s, i).nodes[j]) {
      assert LogOk(s.h.reigns, s.nodes[j]);
    }
  }

  /**
    The election restriction at work: if the voter holds the first j entries of term t, then a
    candidate that is at least as up-to-date holds them too, unless a later leader missed them.
   */
  lemma UpToDateKeeps(r: Reigns, t: int, j: int, f: seq<Entry>, lastTerm: int, len: int, g: seq<Entry>, u: int)
    requires LinesOk(r) && Rooted(r, f) && Rooted(r, g)
    requires forall k :: 0 <= k < |f| ==> 0 <= f[k].term < u
    requires forall k :: 0 <= k < |g| ==> 0 <= g[k].term
    requires Own(r, t, j) && Line(r, t, j) <= g && Claims(r, lastTerm, len, f, u) && UpToDate(lastTerm, len, g)
    ensures Kept(r, t, j, f, u)
  {
    var p := Line(r, t, j);
    assert LineOk(r, t);
    assert p[j - 1].term == t && g[j - 1] == p[j - 1];
    var lg := EndTerm(g);
    assert RootedAt(r, g, |g| - 1);
    assert g[..|g|] == g;
    assert g <= r[lg].log;
    LineTerms(r, lg, j - 1, g);
    assert t <= lg;
    if len == |f| && lastTerm == EndTerm(f) {
      TopKeeps(r, t, j, f, g, u);
    } else if lastTerm > lg && !(p <= r[lastTerm].start) {
      assert Misses(r, t, j, lastTerm);
    } else {
      assert LineOk(r, lastTerm);
    }
  }

  lemma TopKeeps(r: Reigns, t: int, j: int, f: seq<Entry>, g: seq<Entry>, u: int)
    requires LinesOk(r) && Rooted(r, f) && forall k :: 0 <= k < |f| ==> 0 <= f[k].term < u
    requires Own(r, t, j) && Line(r, t, j) <= g && t <= EndTerm(g) && EndTerm(g) in r && g <= r[EndTerm(g)].log
    requires g[|g| - 1].term >= 0 && UpToDate(EndTerm(f), |f|, g)
    ensures Kept(r, t, j, f, u)
  {
    var p, lf, lg := Line(r, t, j), EndTerm(f), EndTerm(g);
    assert |p| == j > 0;
    if f == [] {
      assert false;
    }
    assert RootedAt(r, f, |f| - 1);
    assert f[..|f|] == f;
    assert f <= r[lf].log;
    if lf == lg {
      PrefixesCompare(g, f, r[lf].log);
    } else if p <= r[lf].start {
      assert LineOk(r, lf);
      assert |f| > |r[lf].start| by {
        assert f[|f| - 1] == r[lf].log[|f| - 1];
      }
      PrefixesCompare(p, f, r[lf].log);
    } else {
      assert Misses(r, t, j, lf);
    }
  }

  /** Terms in a leader's log do not exceed its own. */
  lemma LineTerms(r: Reigns, t: int, k: nat, g: seq<Entry>)
    requires LinesOk(r) && t in r && g <= r[t].log && k < |g|
    ensures g[k].term <= t
  {
    assert LineOk(r, t);
    assert g[k] == r[t].log[k];
    if k < |r[t].start| {
      assert r[t].log[k] == r[t].start[k];
    }
  }

  ghost predicate MayVote(s: State, v: nat, c: nat, lastTerm: int, len: int) {
    && CanGrant(s, v, c)
    && UpToDate(lastTerm, len, s.nodes[v].log)
    && (Standing(s, c, s.nodes[v].term) ==> Claims(s.h.reigns, lastTerm, len, s.nodes[c].log, s.nodes[v].term))
  }

  lemma TermsWithin(s: State, i: nat)
    requires VoteInv(s) && LogsOk(s) && i < |s.nodes|
    ensures forall k :: 0 <= k < |s.nodes[i].log| ==> 0 <= s.nodes[i].log[k].term <= s.nodes[i].term
  {
    var n := s.nodes[i];
    assert LogOk(s.h.reigns, n);
    forall k | 0 <= k < |n.log| ensures 0 <= n.log[k].term {
      assert RootedAt(s.h.reigns, n.log, k);
    }
  }

  /** What the voter acknowledged in earlier terms, the candidate has, or it was lost already. */
  lemma VoteCarries(s: State, v: nat, c: nat, lastTerm: int, len: int, a: Ack)
    requires Inv(s) && MayVote(s, v, c, lastTerm, len) && Standing(s, c, s.nodes[v].term)
    requires a in s.h.acks && a.node == v && a.term < s.nodes[v].term
    ensures AllKept(s.h.reigns, a, s.nodes[c].log, s.nodes[v].term)
  {
    assert AckOk(s, a);
    TermsWithin(s, v);
    TermsWithin(s, c);
    assert LogOk(s.h.reigns, s.nodes[c]) && LogOk(s.h.reigns, s.nodes[v]);
    VoteCarriesEach(s.h.reigns, a, s.nodes[c].log, lastTerm, len, s.nodes[v].log, s.nodes[v].term);
  }

  lemma VoteCarriesEach(r: Reigns, a: Ack, f: seq<Entry>, lastTerm: int, len: int, g: seq<Entry>, u: int)
    requires LinesOk(r) && Rooted(r, f) && Rooted(r, g)
    requires forall k :: 0 <= k < |f| ==> 0 <= f[k].term < u
    requires forall k :: 0 <= k < |g| ==> 0 <= g[k].term
    requires Claims(r, lastTerm, len, f, u) && UpToDate(lastTerm, len, g) && AllKept(r, a, g, u)
    ensures AllKept(r, a, f, u)
  {
    forall j | Own(r, a.term, j) && j <= a.len ensures Kept(r, a.term, j, f, u) {
      assert Kept(r, a.term, j, g, u);
      if Line(r, a.term, j) <= g {
        UpToDateKeeps(r, a.term, j, f, lastTerm, len, g, u);
      }
    }
  }

  lemma GrantCandidate(s: State, v: nat, c: nat, lastTerm: int, len: int, x: Vote, a: Ack)
    requires Inv(s) && MayVote(s, v, c, lastTerm, len)
    requires x in s.h.votes || x == Vote(s.nodes[v].term, v, c)
    requires a in s.h.acks && Standing(s, x.cand, x.term) && a.node == x.voter && a.term < x.term
    ensures AllKept(s.h.reigns, a, s.nodes[x.cand].log, x.term)
  {
    if x !in s.h.votes {
      VoteCarries(s, v, c, lastTerm, len, a);
    }
  }

  lemma GrantCandidates(s: State, v: nat, c: nat, lastTerm: int, len: int)
    requires Inv(s) && MayVote(s, v, c, lastTerm, len)
    ensures CandidatesOk(Grant(s, v, c))
  {
    var s' := Grant(s, v, c);
    forall x <- s'.h.votes, a <- s'.h.acks
      | Standing(s', x.cand, x.term) && a.node == x.voter && a.term < x.term
      ensures AllKept(s'.h.reigns, a, s'.nodes[x.cand].log, x.term)
    {
      GrantCandidate(s, v, c, lastTerm, len, x, a);
    }
  }

  lemma GrantLogs(s: State, v: nat, c: nat, lastTerm: int, len: int)
    requires Inv(s) && MayVote(s, v, c, lastTerm, len)
    ensures LogInv(Grant(s, v, c))
  {
    GrantCandidates(s, v, c, lastTerm, len);
    GrantSettled(s, v, c);
    FrameAcks(s, Grant(s, v, c));
    FrameElected(s, Grant(s, v, c));
    CommitsStay(s, Grant(s, v, c));
    FrameLogs(s, Grant(s, v, c));
  }

  lemma GrantSettled(s: State, v: nat, c: nat)
    requires CommitIndicesOk(s) && v < |s.nodes|
    ensures CommitIndicesOk(Grant(s, v, c))
  {
    var s' := Grant(s, v, c);
    forall j | 0 <= j < |s.nodes|
      ensures Settled(s'.h, s.nodes[j].log[..s.nodes[j].commit], s.nodes[j].term)
    {
      SettledStays(s.h, s'.h, s.nodes[j].log[..s.nodes[j].commit], s.nodes[j].term, s.nodes[j].term);
    }
  }

  // ------------------------------------------------------------------ logs: a new reign

  lemma CommitsStay(s: State, s': State)
    requires CommitsOk(s) && |s.nodes| == |s'.nodes|
    requires Extends(s.h.reigns, s'.h.reigns) && s.h.acks <= s'.h.acks && s.h.commits == s'.h.commits
    ensures CommitsOk(s')
  {
    forall c <- s'.h.commits
      ensures Own(s'.h.reigns, c.term, c.len)
      ensures exists q: set<nat> :: IsQuorum(q, |s'.nodes|) && AckedByAll(s'.h, c.term, q, c.len)
    {
      OwnStays(s.h.reigns, s'.h.reigns, c.term, c.len);
      var q: set<nat> :| IsQuorum(q, |s.nodes|) && AckedByAll(s.h, c.term, q, c.len);
      forall v <- q ensures Acked(s'.h, c.term, v, c.len) {
        assert Acked(s.h, c.term, v, c.len);
      }
      assert AckedByAll(s'.h, c.term, q, c.len);
    }
  }

  lemma IndicesStay(s: State, s': State)
    requires CommitIndicesOk(s) && |s.nodes| == |s'.nodes|
    requires forall i :: 0 <= i < |s.nodes| ==>
               && s.nodes[i].term <= s'.nodes[i].term && s.nodes[i].commit == s'.nodes[i].commit
               && (s.nodes[i].log <= s'.nodes[i].log)
    requires Extends(s.h.reigns, s'.h.reigns) && s.h.commits <= s'.h.commits
    ensures CommitIndicesOk(s')
  {
    forall i | 0 <= i < |s.nodes|
      ensures Settled(s'.h, s'.nodes[i].log[..s'.nodes[i].commit], s'.nodes[i].term)
    {
      assert s'.nodes[i].log[..s'.nodes[i].commit] == s.nodes[i].log[..s.nodes[i].commit];
      SettledStays(s.h, s'.h, s.nodes[i].log[..s.nodes[i].commit], s.nodes[i].term, s'.nodes[i].term);
    }
  }

  lemma ElectExtends(s: State, c: nat, q: set<nat>)
    requires VoteInv(s) && CanElect(s, c, q)
    ensures Extends(s.h.reigns, Elect(s, c, q).h.reigns)
    ensures s.nodes[c].term !in s.h.reigns
  {
    NoReignYet(s, c, q);
  }

  lemma ElectLines(s: State, c: nat, q: set<nat>)
    requires Inv(s) && CanElect(s, c, q)
    ensures LinesOk(Elect(s, c, q).h.reigns)
    ensures LogsOk(Elect(s, c, q))
  {
    ElectExtends(s, c, q);
    var r := s.h.reigns;
    var r' := Elect(s, c, q).h.reigns;
    assert LogOk(r, s.nodes[c]);
    forall t <- r' ensures LineOk(r', t) {
      if t in r {
        assert LineOk(r, t);
        RootedStays(r, r', r[t].log);
      } else {
        RootedStays(r, r', s.nodes[c].log);
      }
    }
    forall i | 0 <= i < |s.nodes| ensures LogOk(r', Elect(s, c, q).nodes[i]) {
      assert LogOk(r, s.nodes[i]);
      RootedStays(r, r', s.nodes[i].log);
      assert s.nodes[i].role == Leader ==> s.nodes[i].term in r;
    }
  }

  lemma ElectAcks(s: State, c: nat, q: set<nat>)
    requires Inv(s) && CanElect(s, c, q)
    ensures AcksOk(Elect(s, c, q)) && CandidatesOk(Elect(s, c, q))
  {
    ElectExtends(s, c, q);
    var s' := Elect(s, c, q);
    forall a <- s'.h.acks ensures AckOk(s', a) {
      assert AckOk(s, a);
      AllKeptStays(s.h.reigns, s'.h.reigns, a, s.nodes[a.node].log, s.nodes[a.node].term);
    }
    forall x <- s'.h.votes, a <- s'.h.acks
      | Standing(s', x.cand, x.term) && a.node == x.voter && a.term < x.term
      ensures AllKept(s'.h.reigns, a, s'.nodes[x.cand].log, x.term)
    {
      assert Standing(s, x.cand, x.term) && AckOk(s, a);
      AllKeptStays(s.h.reigns, s'.h.reigns, a, s.nodes[x.cand].log, x.term);
    }
  }

  /** The new leader's voters gave it everything they had acknowledged. */
  lemma ElectCarries(s: State, c: nat, q: set<nat>, a: Ack)
    requires CandidatesOk(s) && CanElect(s, c, q) && s.nodes[c].term !in s.h.reigns
    requires a in s.h.acks && a.node in q && a.term < s.nodes[c].term
    ensures AllKept(s.h.reigns, a, s.nodes[c].log, s.nodes[c].term - 1)
  {
    var u := s.nodes[c].term;
    assert Vote(u, a.node, c) in s.h.votes && Standing(s, c, u);
    assert AllKept(s.h.reigns, a, s.nodes[c].log, u);
    forall j | Own(s.h.reigns, a.term, j) && j <= a.len
      ensures Kept(s.h.reigns, a.term, j, s.nodes[c].log, u - 1)
    {
      assert Kept(s.h.reigns, a.term, j, s.nodes[c].log, u);
      if Lost(s.h.reigns, a.term, j, u) {
        var w :| a.term < w <= u && Misses(s.h.reigns, a.term, j, w);
        assert w != u;
      }
    }
  }

  lemma ElectElected(s: State, c: nat, q: set<nat>)
    requires Inv(s) && CanElect(s, c, q)
    ensures ElectedOk(Elect(s, c, q))
  {
    ElectExtends(s, c, q);
    AcksAreWithin(s);
    var h' := Elect(s, c, q).h;
    forall t, a ensures ElectedWith(h', t, a) {
      if t in h'.reigns && a in h'.acks && a.node in h'.reigns[t].voters && a.term < t {
        ElectElectedOne(s, c, q, t, a);
      }
    }
  }

  lemma ElectElectedOne(s: State, c: nat, q: set<nat>, t: int, a: Ack)
    requires VoteInv(s) && CandidatesOk(s) && ElectedOk(s) && CanElect(s, c, q) && AcksWithin(s.h)
    requires s.nodes[c].term !in s.h.reigns && Extends(s.h.reigns, Elect(s, c, q).h.reigns)
    requires t in Elect(s, c, q).h.reigns && a in Elect(s, c, q).h.acks
    requires a.node in Elect(s, c, q).h.reigns[t].voters && a.term < t
    ensures AllKept(Elect(s, c, q).h.reigns, a, Elect(s, c, q).h.reigns[t].start, t - 1)
  {
    var h' := Elect(s, c, q).h;
    if t == s.nodes[c].term {
      ElectCarries(s, c, q, a);
      AllKeptStays(s.h.reigns, h'.reigns, a, s.nodes[c].log, t - 1);
    } else {
      ElectedStays(s, h', c, t, a);
    }
  }

  lemma ElectLogs(s: State, c: nat, q: set<nat>)
    requires Inv(s) && CanElect(s, c, q)
    ensures LogInv(Elect(s, c, q))
  {
    ElectExtends(s, c, q);
    ElectLines(s, c, q);
    ElectAcks(s, c, q);
    ElectElected(s, c, q);
    CommitsStay(s, Elect(s, c, q));
    IndicesStay(s, Elect(s, c, q));
  }

  // ------------------------------------------------------------------ logs: appending

  ghost predicate CanAppend(s: State, i: nat, e: Entry) {
    && i < |s.nodes| && s.nodes[i].role == Leader && s.nodes[i].term in s.h.reigns
    && e.term == s.nodes[i].term
  }

  lemma AppendExtends(s: State, i: nat, e: Entry)
    requires Inv(s) && CanAppend(s, i, e)
    ensures Extends(s.h.reigns, Append(s, i, e).h.reigns)
    ensures s.h.reigns[s.nodes[i].term].log == s.nodes[i].log
    ensures s.h.reigns[s.nodes[i].term].node == i
  {
    assert LogOk(s.h.reigns, s.nodes[i]);
  }

  lemma RootedPush(r: Reigns, f: seq<Entry>, e: Entry)
    requires Rooted(r, f) && e.term in r && f + [e] <= r[e.term].log
    ensures Rooted(r, f + [e])
  {
    var g := f + [e];
    forall k | 0 <= k < |g| ensures RootedAt(r, g, k) {
      if k < |f| {
        assert RootedAt(r, f, k);
        assert g[..k + 1] == f[..k + 1];
      } else {
        assert g[..k + 1] == g;
      }
    }
  }

  lemma AppendLines(s: State, i: nat, e: Entry)
    requires Inv(s) && CanAppend(s, i, e)
    ensures LinesOk(Append(s, i, e).h.reigns)
  {
    AppendExtends(s, i, e);
    AppendRooted(s, i, e);
    var r := s.h.reigns;
    var r' := Append(s, i, e).h.reigns;
    forall t <- r' ensures LineOk(r', t) {
      assert LineOk(r, t);
      RootedStays(r, r', r[t].log);
    }
  }

  /** The new entry extends a log that the reigns bear out. */
  lemma AppendRooted(s: State, i: nat, e: Entry)
    requires Inv(s) && CanAppend(s, i, e)
    ensures var s' := Append(s, i, e); Rooted(s'.h.reigns, s'.nodes[i].log)
  {
    AppendExtends(s, i, e);
    var r := s.h.reigns;
    var r' := Append(s, i, e).h.reigns;
    assert LogOk(r, s.nodes[i]) && LineOk(r, e.term);
    RootedStays(r, r', s.nodes[i].log);
    RootedPush(r', s.nodes[i].log, e);
  }

  lemma AppendLogsOk(s: State, i: nat, e: Entry)
    requires Inv(s) && CanAppend(s, i, e)
    ensures LogsOk(Append(s, i, e))
  {
    AppendExtends(s, i, e);
    AppendRooted(s, i, e);
    var r := s.h.reigns;
    var s' := Append(s, i, e);
    var r' := s'.h.reigns;
    forall j | 0 <= j < |s.nodes| ensures LogOk(r', s'.nodes[j]) {
      assert LogOk(r, s.nodes[j]);
      RootedStays(r, r', s.nodes[j].log);
      if j != i && s.nodes[j].role == Leader {
        assert s.nodes[j].term != s.nodes[i].term;
      }
    }
  }

  lemma AppendAcks(s: State, i: nat, e: Entry)
    requires Inv(s) && CanAppend(s, i, e)
    ensures AcksOk(Append(s, i, e))
  {
    AppendExtends(s, i, e);
    var s' := Append(s, i, e);
    var r' := s'.h.reigns;
    forall a <- s'.h.acks ensures AckOk(s', a) {
      assert AckOk(s, a);
      AllKeptStays(s.h.reigns, r', a, s.nodes[a.node].log, s.nodes[a.node].term);
      if a.node == i {
        AllKeptLonger(r', a, s.nodes[i].log, s'.nodes[i].log, s.nodes[i].term);
      }
    }
  }

  lemma AppendCandidates(s: State, i: nat, e: Entry)
    requires Inv(s) && CanAppend(s, i, e)
    ensures CandidatesOk(Append(s, i, e))
  {
    AppendExtends(s, i, e);
    var s' := Append(s, i, e);
    forall x <- s'.h.votes, a <- s'.h.acks
      | Standing(s', x.cand, x.term) && a.node == x.voter && a.term < x.term
      ensures AllKept(s'.h.reigns, a, s'.nodes[x.cand].log, x.term)
    {
      assert Standing(s, x.cand, x.term) && AckOk(s, a);
      AllKeptStays(s.h.reigns, s'.h.reigns, a, s.nodes[x.cand].log, x.term);
    }
  }

  lemma AppendElected(s: State, i: nat, e: Entry)
    requires Inv(s) && CanAppend(s, i, e)
    ensures ElectedOk(Append(s, i, e))
  {
    AppendExtends(s, i, e);
    AcksAreWithin(s);
    var h' := Append(s, i, e).h;
    forall t, a ensures ElectedWith(h', t, a) {
      if t in h'.reigns && a in h'.acks && a.node in h'.reigns[t].voters && a.term < t {
        ElectedStays(s, h', i, t, a);
      }
    }
  }

  /** A node that voted in a later term gives no further ack in term u. */
  lemma OldAck(s: State, v: Vote, u: int, i: nat, a: Ack, acks: set<Ack>)
    requires VotesOk(s) && v in s.h.votes && i < |s.nodes| && u == s.nodes[i].term
    requires a in acks && a.node == v.voter && a.term < v.term
    requires forall b <- acks :: b in s.h.acks || (b.node == i && b.term == u)
    ensures a in s.h.acks
  {}

  lemma AllKeptLonger(r: Reigns, a: Ack, f: seq<Entry>, f': seq<Entry>, hi: int)
    requires AllKept(r, a, f, hi) && f <= f'
    ensures AllKept(r, a, f', hi)
  {
    forall j | Own(r, a.term, j) && j <= a.len ensures Kept(r, a.term, j, f', hi) {
      assert Kept(r, a.term, j, f, hi);
    }
  }

  lemma AppendLogs(s: State, i: nat, e: Entry)
    requires Inv(s) && CanAppend(s, i, e)
    ensures LogInv(Append(s, i, e))
  {
    AppendExtends(s, i, e);
    AppendLines(s, i, e);
    AppendLogsOk(s, i, e);
    AppendAcks(s, i, e);
    AppendCandidates(s, i, e);
    AppendElected(s, i, e);
    CommitsStay(s, Append(s, i, e));
    IndicesStay(s, Append(s, i, e));
  }

  // ------------------------------------------------------------------ logs: adopting the leader's

  ghost predicate CanAdopt(s: State, i: nat, f: seq<Entry>) {
    && i < |s.nodes| && s.nodes[i].role == Follower && s.nodes[i].term in s.h.reigns
    && Merges(s.nodes[i].log, f, s.h.reigns[s.nodes[i].term].log)
  }

  /** Merging with the leader's log loses nothing acknowledged that the leader has. */
  lemma AdoptKeeps(s: State, i: nat, f: seq<Entry>, a: Ack)
    requires Inv(s) && CanAdopt(s, i, f) && a in s.h.acks && a.node == i
    ensures AllKept(s.h.reigns, a, f, s.nodes[i].term)
  {
    var r := s.h.reigns;
    var u := s.nodes[i].term;
    assert AckOk(s, a);
    forall j | Own(r, a.term, j) && j <= a.len ensures Kept(r, a.term, j, f, u) {
      assert Kept(r, a.term, j, s.nodes[i].log, u);
      var p := Line(r, a.term, j);
      if p <= s.nodes[i].log && f != s.nodes[i].log {
        if a.term == u || p <= r[u].start {
          StartInLog(s, u);
          assert p <= r[u].log;
          assert s.nodes[i].log[..j] == p && r[u].log[..j] == p;
        } else {
          assert Misses(r, a.term, j, u);
        }
      }
    }
  }

  lemma AdoptCommit(s: State, i: nat, f: seq<Entry>)
    requires Inv(s) && CanAdopt(s, i, f)
    ensures s.nodes[i].log[..s.nodes[i].commit] <= f
  {
    var n := s.nodes[i];
    var p := n.log[..n.commit];
    SettledInReign(s, p, n.term, n.term);
    assert s.h.reigns[n.term].log[..n.commit] == p;
  }

  lemma AdoptRooted(s: State, i: nat, f: seq<Entry>)
    requires LinesOk(s.h.reigns) && LogsOk(s) && CanAdopt(s, i, f)
    ensures LogsOk(Adopt(s, i, f))
  {
    var n := s.nodes[i];
    assert LogOk(s.h.reigns, n) && LineOk(s.h.reigns, n.term);
    if f != n.log {
      RootedPrefix(s.h.reigns, s.h.reigns[n.term].log, |f|);
      assert s.h.reigns[n.term].log[..|f|] == f;
      forall k | 0 <= k < |f| ensures f[k].term <= n.term {
        LineTerms(s.h.reigns, n.term, k, f);
      }
    }
  }

  lemma AdoptLogs(s: State, i: nat, f: seq<Entry>)
    requires Inv(s) && CanAdopt(s, i, f)
    ensures LogInv(Adopt(s, i, f))
  {
    var s' := Adopt(s, i, f);
    AdoptRooted(s, i, f);
    assert AcksOk(s') by {
      forall a <- s'.h.acks ensures AckOk(s', a) {
        assert AckOk(s, a);
        if a.node == i {
          AdoptKeeps(s, i, f, a);
        }
      }
    }
    FrameCandidates(s, s');
    FrameElected(s, s');
    FrameCommits(s, s');
    AdoptCommit(s, i, f);
    AdoptIndices(s, i, f);
  }

  lemma AdoptIndices(s: State, i: nat, f: seq<Entry>)
    requires CommitIndicesOk(s) && i < |s.nodes| && s.nodes[i].log[..s.nodes[i].commit] <= f
    ensures CommitIndicesOk(Adopt(s, i, f))
  {
    assert f[..s.nodes[i].commit] == s.nodes[i].log[..s.nodes[i].commit];
  }

  // ------------------------------------------------------------------ logs: installing a snapshot

  /** f' is f when it already holds the committed prefix p, and just p otherwise. */
  ghost predicate CanInstall(s: State, i: nat, p: seq<Entry>, f: seq<Entry>) {
    && i < |s.nodes| && s.nodes[i].role == Follower
    && Settled(s.h, p, s.nodes[i].term)
    && f == (if p <= s.nodes[i].log then s.nodes[i].log else p)
  }

  /** A committed prefix and an acknowledged line of the same node cannot diverge unnoticed. */
  lemma InstallKeeps(s: State, i: nat, p: seq<Entry>, f: seq<Entry>, a: Ack)
    requires Inv(s) && CanInstall(s, i, p, f) && a in s.h.acks && a.node == i
    ensures AllKept(s.h.reigns, a, f, s.nodes[i].term)
  {
    assert AckOk(s, a);
    if !(p <= s.nodes[i].log) {
      var c :| c in s.h.commits && SettledBy(s.h, c, p, s.nodes[i].term);
      InstallCommitted(s, c, a.term, p);
      InstallKeepsEach(s.h.reigns, a, c, p, s.nodes[i].log, s.nodes[i].term);
    }
  }

  lemma InstallCommitted(s: State, c: Commit, t: int, p: seq<Entry>)
    requires Inv(s) && c in s.h.commits && c.term in s.h.reigns && SettledBy(s.h, c, p, c.term)
    ensures p <= s.h.reigns[c.term].log && s.h.reigns[c.term].start <= s.h.reigns[c.term].log
    ensures c.term <= t && t in s.h.reigns ==> p <= s.h.reigns[t].log
  {
    StartInLog(s, c.term);
    if c.term <= t && t in s.h.reigns {
      CommittedInReign(s, c, t);
    }
  }

  lemma InstallKeepsEach(r: Reigns, a: Ack, c: Commit, p: seq<Entry>, g: seq<Entry>, u: int)
    requires AllKept(r, a, g, u) && !(p <= g)
    requires c.term <= u && c.term in r && p <= r[c.term].log && r[c.term].start <= r[c.term].log
    requires c.term <= a.term && a.term in r ==> p <= r[a.term].log
    ensures AllKept(r, a, p, u)
  {
    forall j | Own(r, a.term, j) && j <= a.len ensures Kept(r, a.term, j, p, u) {
      assert Kept(r, a.term, j, g, u);
      var q := Line(r, a.term, j);
      if q <= g {
        if a.term >= c.term {
          PrefixesCompare(p, q, r[a.term].log);
        } else if q <= r[c.term].start {
          PrefixesCompare(p, q, r[c.term].log);
        } else {
          assert Misses(r, a.term, j, c.term);
        }
      }
    }
  }

  /** A committed prefix is rooted, and its terms do not exceed the term it was committed by. */
  lemma SettledRooted(h: History, p: seq<Entry>, hi: int)
    requires LinesOk(h.reigns) && Settled(h, p, hi)
    ensures Rooted(h.reigns, p)
    ensures forall k :: 0 <= k < |p| ==> p[k].term <= hi
  {
    if p != [] {
      var c :| c in h.commits && SettledBy(h, c, p, hi);
      assert LineOk(h.reigns, c.term);
      RootedPrefix(h.reigns, h.reigns[c.term].log, |p|);
      assert h.reigns[c.term].log[..|p|] == p;
      forall k | 0 <= k < |p| ensures p[k].term <= hi {
        LineTerms(h.reigns, c.term, k, p);
      }
    }
  }

  lemma InstallRooted(s: State, i: nat, p: seq<Entry>, f: seq<Entry>)
    requires LinesOk(s.h.reigns) && LogsOk(s) && CanInstall(s, i, p, f)
    ensures LogsOk(Adopt(s, i, f))
  {
    SettledRooted(s.h, p, s.nodes[i].term);
    assert LogOk(s.h.reigns, s.nodes[i]);
  }

  lemma InstallLogs(s: State, i: nat, p: seq<Entry>, f: seq<Entry>)
    requires Inv(s) && CanInstall(s, i, p, f)
    ensures LogInv(Adopt(s, i, f))
  {
    var s' := Adopt(s, i, f);
    var n := s.nodes[i];
    InstallRooted(s, i, p, f);
    assert AcksOk(s') by {
      forall a <- s'.h.acks ensures AckOk(s', a) {
        assert AckOk(s, a);
        if a.node == i {
          InstallKeeps(s, i, p, f, a);
        }
      }
    }
    FrameCandidates(s, s');
    FrameElected(s, s');
    FrameCommits(s, s');
    SettledCompare(s, p, n.log[..n.commit], n.term, n.term);
    AdoptIndices(s, i, f);
  }

  // ------------------------------------------------------------------ acknowledging and committing

  ghost predicate CanAcknowledge(s: State, i: nat, m: int) {
    && i < |s.nodes| && s.nodes[i].term in s.h.reigns
    && 0 <= m <= |s.h.reigns[s.nodes[i].term].log|
    && s.h.reigns[s.nodes[i].term].log[..m] <= s.nodes[i].log
  }

  lemma AcknowledgeAcks(s: State, i: nat, m: int)
    requires Inv(s) && CanAcknowledge(s, i, m)
    ensures AcksOk(Acknowledge(s, i, m))
  {
    var s' := Acknowledge(s, i, m);
    var u := s.nodes[i].term;
    forall a <- s'.h.acks ensures AckOk(s', a) {
      if a in s.h.acks {
        assert AckOk(s, a);
      } else {
        forall j | Own(s.h.reigns, u, j) && j <= m ensures Kept(s.h.reigns, u, j, s.nodes[i].log, u) {
          assert Line(s.h.reigns, u, j) <= s.h.reigns[u].log[..m];
        }
      }
    }
  }

  lemma AcknowledgeElected(s: State, i: nat, m: int)
    requires VoteInv(s) && ElectedOk(s) && AcksWithin(s.h) && i < |s.nodes|
    ensures ElectedOk(Acknowledge(s, i, m))
  {
    var h' := Acknowledge(s, i, m).h;
    forall t, a ensures ElectedWith(h', t, a) {
      if t in h'.reigns && a in h'.acks && a.node in h'.reigns[t].voters && a.term < t {
        ElectedStays(s, h', i, t, a);
      }
    }
  }

  lemma AcknowledgeCandidates(s: State, i: nat, m: int)
    requires VoteInv(s) && CandidatesOk(s) && i < |s.nodes|
    ensures CandidatesOk(Acknowledge(s, i, m))
  {
    var s' := Acknowledge(s, i, m);
    forall x <- s'.h.votes, a <- s'.h.acks
      | Standing(s', x.cand, x.term) && a.node == x.voter && a.term < x.term
      ensures AllKept(s'.h.reigns, a, s'.nodes[x.cand].log, x.term)
    {
      assert Standing(s, x.cand, x.term);
      OldAck(s, x, s.nodes[i].term, i, a, s'.h.acks);
    }
  }

  lemma AcknowledgeLogs(s: State, i: nat, m: int)
    requires Inv(s) && CanAcknowledge(s, i, m)
    ensures Inv(Acknowledge(s, i, m))
  {
    var s' := Acknowledge(s, i, m);
    FrameVotes(s, s');
    FrameLogs(s, s');
    AcknowledgeAcks(s, i, m);
    AcksAreWithin(s);
    AcknowledgeElected(s, i, m);
    AcknowledgeCandidates(s, i, m);
    CommitsStay(s, s');
    IndicesStay(s, s');
  }

  ghost predicate CanLeadCommit(s: State, i: nat, k: int, q: set<nat>) {
    && i < |s.nodes| && s.nodes[i].role == Leader
    && s.nodes[i].commit <= k && 0 < k <= |s.nodes[i].log|
    && s.nodes[i].log[k - 1].term == s.nodes[i].term
    && IsQuorum(q, |s.nodes|) && AckedByAll(s.h, s.nodes[i].term, q, k)
  }

  lemma LeadCommitOwn(s: State, i: nat, k: int, q: set<nat>)
    requires Inv(s) && CanLeadCommit(s, i, k, q)
    ensures Own(s.h.reigns, s.nodes[i].term, k)
    ensures Settled(LeadCommit(s, i, k).h, s.nodes[i].log[..k], s.nodes[i].term)
  {
    var n := s.nodes[i];
    var r := s.h.reigns;
    assert LogOk(r, n) && LineOk(r, n.term);
    assert forall j :: 0 <= j < |r[n.term].start| ==> r[n.term].start[j] == n.log[j];
    assert SettledBy(LeadCommit(s, i, k).h, Commit(n.term, k), n.log[..k], n.term);
  }

  lemma LeadCommitCommits(s: State, i: nat, k: int, q: set<nat>)
    requires Inv(s) && CanLeadCommit(s, i, k, q)
    ensures CommitsOk(LeadCommit(s, i, k))
  {
    var s' := LeadCommit(s, i, k);
    LeadCommitOwn(s, i, k, q);
    forall c <- s'.h.commits
      ensures Own(s.h.reigns, c.term, c.len)
      ensures exists q: set<nat> :: IsQuorum(q, |s'.nodes|) && AckedByAll(s'.h, c.term, q, c.len)
    {
      if c in s.h.commits {
        var q': set<nat> :| IsQuorum(q', |s.nodes|) && AckedByAll(s.h, c.term, q', c.len);
        AckedSame(s.h, s'.h, c.term, q', c.len);
      } else {
        AckedSame(s.h, s'.h, c.term, q, c.len);
      }
    }
  }

  lemma LeadCommitIndices(s: State, i: nat, k: int, q: set<nat>)
    requires Inv(s) && CanLeadCommit(s, i, k, q)
    ensures CommitIndicesOk(LeadCommit(s, i, k))
  {
    var s' := LeadCommit(s, i, k);
    LeadCommitOwn(s, i, k, q);
    forall j | 0 <= j < |s.nodes|
      ensures Settled(s'.h, s.nodes[j].log[..s.nodes[j].commit], s.nodes[j].term)
    {
      SettledStays(s.h, s'.h, s.nodes[j].log[..s.nodes[j].commit], s.nodes[j].term, s.nodes[j].term);
    }
  }

  lemma LeadCommitLogs(s: State, i: nat, k: int, q: set<nat>)
    requires Inv(s) && CanLeadCommit(s, i, k, q)
    ensures Inv(LeadCommit(s, i, k))
    ensures Settled(LeadCommit(s, i, k).h, s.nodes[i].log[..k], s.nodes[i].term)
  {
    var s' := LeadCommit(s, i, k);
    FrameVotes(s, s');
    FrameLogs(s, s');
    LeadCommitOwn(s, i, k, q);
    LeadCommitCommits(s, i, k, q);
    LeadCommitIndices(s, i, k, q);
    FrameAcks(s, s');
    FrameCandidates(s, s');
    FrameElected(s, s');
  }

  lemma AckedSame(h: History, h': History, t: int, q: set<nat>, k: int)
    requires AckedByAll(h, t, q, k) && h.acks <= h'.acks
    ensures AckedByAll(h', t, q, k)
  {
    forall v <- q ensures Acked(h', t, v, k) {
      assert Acked(h, t, v, k);
    }
  }

  ghost predicate CanLearnCommit(s: State, i: nat, k: int) {
    && i < |s.nodes|
    && 0 <= k <= |s.nodes[i].log|
    && Settled(s.h, s.nodes[i].log[..k], s.nodes[i].term)
  }

  lemma LearnCommitLogs(s: State, i: nat, k: int)
    requires Inv(s) && CanLearnCommit(s, i, k)
    ensures Inv(LearnCommit(s, i, k))
  {
    var s' := LearnCommit(s, i, k);
    FrameVotes(s, s');
    FrameLogs(s, s');
    FrameAcks(s, s');
    FrameCandidates(s, s');
    FrameElected(s, s');
    FrameCommits(s, s');
    LearnCommitIndices(s, i, k);
  }

  lemma LearnCommitIndices(s: State, i: nat, k: int)
    requires CommitIndicesOk(s) && CanLearnCommit(s, i, k)
    ensures CommitIndicesOk(LearnCommit(s, i, k))
  {}
}
