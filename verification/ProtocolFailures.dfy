/**
  A server gives up the unsent end of its log, because the write of one of its entries failed. As long
  as no other log and no acknowledgement reaches the first entry given up, the record can be taken back
  with it, and all that the protocol keeps survives.
 */
module ProtocolFailures {
  import opened RaftTypes
  import opened Protocol
  import opened ProtocolSteps

  /** Only node i, and logs it led with, hold what it has at position p; nobody acknowledged it. */
  ghost predicate Unshared(s: State, i: nat, p: nat)
    requires i < |s.nodes| && p < |s.nodes[i].log|
  {
    var e := s.nodes[i].log[p];
    && (forall j :: 0 <= j < |s.nodes| && j != i ==> !Has(s.nodes[j].log, p, e))
    && (forall a <- s.h.acks :: a.term in s.h.reigns && Has(s.h.reigns[a.term].log, p, e) ==> a.len <= p)
  }

  /** What a log without position p's entry, or cut there, keeps of a line. */
  lemma KeptCut(r: Reigns, p: nat, e: Entry, t: int, j: int, f: seq<Entry>, f': seq<Entry>, hi: int)
    requires Own(r, t, j) && Kept(r, t, j, f, hi) && Own(Forget(r, p, e), t, j)
    requires f' == f || (Has(f, p, e) && f' == f[..p])
    ensures Line(Forget(r, p, e), t, j) == Line(r, t, j)
    ensures Kept(Forget(r, p, e), t, j, f', hi)
  {
    var r' := Forget(r, p, e);
    assert Line(r', t, j) == Line(r, t, j);
    if !(Line(r, t, j) <= f) {
      var w :| t < w <= hi && Misses(r, t, j, w);
      assert r'[w].start <= r[w].start;
      assert Misses(r', t, j, w);
    }
  }

  lemma AllKeptCut(r: Reigns, p: nat, e: Entry, a: Ack, f: seq<Entry>, f': seq<Entry>, hi: int)
    requires AllKept(r, a, f, hi) && (a.term in r && Has(r[a.term].log, p, e) ==> a.len <= p)
    requires f' == f || (Has(f, p, e) && f' == f[..p])
    ensures AllKept(Forget(r, p, e), a, f', hi)
  {
    var r' := Forget(r, p, e);
    forall j | Own(r', a.term, j) && j <= a.len ensures Kept(r', a.term, j, f', hi) {
      OwnBack(r, p, e, a.term, j);
      assert Kept(r, a.term, j, f, hi);
      KeptCut(r, p, e, a.term, j, f, f', hi);
    }
  }

  /** What is left of a reign's own entries was its own before. */
  lemma OwnBack(r: Reigns, p: nat, e: Entry, t: int, j: int)
    requires Own(Forget(r, p, e), t, j)
    ensures Own(r, t, j)
  {}

  /** A log that lacks the entry, or is cut at it, stays rooted. */
  lemma RootedCut(r: Reigns, p: nat, e: Entry, f: seq<Entry>, f': seq<Entry>)
    requires Rooted(r, f)
    requires (f' == f && !Has(f, p, e)) || (Has(f, p, e) && f' == f[..p])
    ensures Rooted(Forget(r, p, e), f')
  {
    var r' := Forget(r, p, e);
    forall k | 0 <= k < |f'| ensures RootedAt(r', f', k) {
      assert RootedAt(r, f, k);
      assert f'[..k + 1] == f[..k + 1];
    }
  }

  lemma LinesCut(r: Reigns, p: nat, e: Entry)
    requires LinesOk(r)
    ensures LinesOk(Forget(r, p, e))
  {
    var r' := Forget(r, p, e);
    forall t <- r' ensures LineOk(r', t) {
      assert LineOk(r, t);
      RootedCut(r, p, e, r[t].log, r'[t].log);
      assert r[t].start == r[t].log[..|r[t].start|];
    }
  }

  lemma GiveUpRooted(s: State, i: nat, p: nat)
    requires LogsOk(s) && i < |s.nodes| && p < |s.nodes[i].log| && Unshared(s, i, p)
    ensures LogsOk(GiveUp(s, i, p))
  {
    var e := s.nodes[i].log[p];
    var s' := GiveUp(s, i, p);
    forall j | 0 <= j < |s.nodes| ensures LogOk(s'.h.reigns, s'.nodes[j]) {
      assert LogOk(s.h.reigns, s.nodes[j]);
      RootedCut(s.h.reigns, p, e, s.nodes[j].log, s'.nodes[j].log);
    }
  }

  lemma GiveUpAcks(s: State, i: nat, p: nat)
    requires AcksOk(s) && i < |s.nodes| && p < |s.nodes[i].log| && Unshared(s, i, p)
    ensures AcksOk(GiveUp(s, i, p))
  {
    var e := s.nodes[i].log[p];
    var s' := GiveUp(s, i, p);
    forall a <- s'.h.acks ensures AckOk(s', a) {
      assert AckOk(s, a);
      AllKeptCut(s.h.reigns, p, e, a, s.nodes[a.node].log, s'.nodes[a.node].log, s.nodes[a.node].term);
    }
  }

  lemma GiveUpCandidates(s: State, i: nat, p: nat)
    requires CandidatesOk(s) && i < |s.nodes| && p < |s.nodes[i].log| && Unshared(s, i, p)
    ensures CandidatesOk(GiveUp(s, i, p))
  {
    var e := s.nodes[i].log[p];
    var s' := GiveUp(s, i, p);
    forall v <- s'.h.votes, a <- s'.h.acks
      | Standing(s', v.cand, v.term) && a.node == v.voter && a.term < v.term
      ensures AllKept(s'.h.reigns, a, s'.nodes[v.cand].log, v.term)
    {
      assert Standing(s, v.cand, v.term);
      AllKeptCut(s.h.reigns, p, e, a, s.nodes[v.cand].log, s'.nodes[v.cand].log, v.term);
    }
  }

  lemma GiveUpElected(s: State, i: nat, p: nat)
    requires ElectedOk(s) && LinesOk(s.h.reigns) && i < |s.nodes| && p < |s.nodes[i].log| && Unshared(s, i, p)
    ensures ElectedOk(GiveUp(s, i, p))
  {
    var e := s.nodes[i].log[p];
    var h' := GiveUp(s, i, p).h;
    forall u, a ensures ElectedWith(h', u, a) {
      if u in h'.reigns && a in h'.acks && a.node in h'.reigns[u].voters && a.term < u {
        assert ElectedWith(s.h, u, a) && LineOk(s.h.reigns, u);
        StartCut(s.h.reigns, p, e, u);
        AllKeptCut(s.h.reigns, p, e, a, s.h.reigns[u].start, h'.reigns[u].start, u - 1);
      }
    }
  }

  lemma StartCut(r: Reigns, p: nat, e: Entry, u: int)
    requires u in r && r[u].start <= r[u].log
    ensures var f, f' := r[u].start, Forget(r, p, e)[u].start; f' == f || (Has(f, p, e) && f' == f[..p])
  {
    assert r[u].start == r[u].log[..|r[u].start|];
  }

  /** A committed length was acknowledged, so it is not part of what is given up. */
  lemma CommitSpared(s: State, i: nat, p: nat, c: Commit)
    requires CommitsOk(s) && i < |s.nodes| && p < |s.nodes[i].log| && Unshared(s, i, p) && c in s.h.commits
    ensures Own(s.h.reigns, c.term, c.len)
    ensures Has(s.h.reigns[c.term].log, p, s.nodes[i].log[p]) ==> c.len <= p
    ensures var r' := GiveUp(s, i, p).h.reigns;
      Own(r', c.term, c.len) && Line(r', c.term, c.len) == Line(s.h.reigns, c.term, c.len)
  {
    var q: set<nat> :| IsQuorum(q, |s.nodes|) && AckedByAll(s.h, c.term, q, c.len);
    var v := QuorumsMeet(q, q, |s.nodes|);
    assert Acked(s.h, c.term, v, c.len);
  }

  lemma GiveUpCommits(s: State, i: nat, p: nat)
    requires CommitsOk(s) && i < |s.nodes| && p < |s.nodes[i].log| && Unshared(s, i, p)
    ensures CommitsOk(GiveUp(s, i, p))
  {
    var s' := GiveUp(s, i, p);
    forall c <- s'.h.commits
      ensures Own(s'.h.reigns, c.term, c.len)
      ensures exists q: set<nat> :: IsQuorum(q, |s'.nodes|) && AckedByAll(s'.h, c.term, q, c.len)
    {
      CommitSpared(s, i, p, c);
      var q: set<nat> :| IsQuorum(q, |s.nodes|) && AckedByAll(s.h, c.term, q, c.len);
      AckedSame(s.h, s'.h, c.term, q, c.len);
    }
  }

  /** What was committed stays committed. */
  lemma GiveUpRemembers(s: State, i: nat, p: nat)
    requires CommitsOk(s) && i < |s.nodes| && p < |s.nodes[i].log| && Unshared(s, i, p)
    ensures Remembers(s.h, GiveUp(s, i, p).h)
  {
    var h' := GiveUp(s, i, p).h;
    forall f, hi | Settled(s.h, f, hi) ensures Settled(h', f, hi) {
      if f != [] {
        var c :| c in s.h.commits && SettledBy(s.h, c, f, hi);
        CommitSpared(s, i, p, c);
        assert SettledBy(h', c, f, hi);
      }
    }
  }

  lemma GiveUpIndices(s: State, i: nat, p: nat)
    requires CommitIndicesOk(s) && CommitsOk(s)
    requires i < |s.nodes| && p < |s.nodes[i].log| && Unshared(s, i, p) && s.nodes[i].commit <= p
    ensures CommitIndicesOk(GiveUp(s, i, p))
  {
    var s' := GiveUp(s, i, p);
    GiveUpRemembers(s, i, p);
    forall j | 0 <= j < |s.nodes|
      ensures 0 <= s'.nodes[j].commit <= |s'.nodes[j].log|
      ensures Settled(s'.h, s'.nodes[j].log[..s'.nodes[j].commit], s'.nodes[j].term)
    {
      assert s'.nodes[j].log[..s'.nodes[j].commit] == s.nodes[j].log[..s.nodes[j].commit];
    }
  }

  /** Giving up what nobody else holds and nobody acknowledged keeps everything. */
  lemma GiveUpLogs(s: State, i: nat, p: nat)
    requires Inv(s) && i < |s.nodes| && p < |s.nodes[i].log| && Unshared(s, i, p) && s.nodes[i].commit <= p
    ensures Inv(GiveUp(s, i, p))
    ensures Remembers(s.h, GiveUp(s, i, p).h)
  {
    var s' := GiveUp(s, i, p);
    StandingsVotes(s, s');
    LinesCut(s.h.reigns, p, s.nodes[i].log[p]);
    GiveUpRooted(s, i, p);
    GiveUpAcks(s, i, p);
    GiveUpCandidates(s, i, p);
    GiveUpElected(s, i, p);
    GiveUpCommits(s, i, p);
    GiveUpRemembers(s, i, p);
    GiveUpIndices(s, i, p);
  }
}
