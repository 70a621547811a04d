/**
  The entries a server holds above its stable index. It has sent them to nobody, so they stand in no
  other log, in no request, and behind no acknowledgement; this is why it may give them up when their
  write fails.
 */
module UnsentEntries {
  import opened RaftTypes
  import opened RaftNode
  import opened Protocol
  import opened Cluster

  predicate Unsent(c: Cluster, j: int, p: int) {
    0 <= j < |c.nodes| && 0 <= p && c.nodes[j].stable <= p < |Full(c.nodes[j])|
  }

  /** Log f holds no unsent entry of any node other than k. */
  ghost predicate FreeBut(c: Cluster, k: int, f: seq<Entry>) {
    forall j, p {:trigger Unsent(c, j, p)} :: j != k && Unsent(c, j, p) ==> !Has(f, p, Full(c.nodes[j])[p])
  }

  ghost predicate Free(c: Cluster, f: seq<Entry>) {
    FreeBut(c, -1, f)
  }

  /** The first k entries of term t's leader are free. */
  ghost predicate SentOk(c: Cluster, t: int, k: int) {
    t in c.h.reigns && 0 <= k <= |c.h.reigns[t].log| ==> Free(c, c.h.reigns[t].log[..k])
  }

  predicate IsRequest(m: Message) {
    m.AskAppend? || m.Gap?
  }

  ghost predicate RequestsFree(c: Cluster) {
    forall m <- c.net :: IsRequest(m) ==> SentOk(c, m.append.term, Reach(m.append))
  }

  ghost predicate AcksFree(c: Cluster) {
    forall a <- c.h.acks :: SentOk(c, a.term, a.len)
  }

  ghost predicate LogsFree(c: Cluster) {
    && (forall i :: 0 <= i < |c.nodes| ==> FreeBut(c, i, Full(c.nodes[i])))
    && (forall t <- c.h.reigns :: FreeBut(c, c.h.reigns[t].node, c.h.reigns[t].log))
  }

  ghost predicate UnsentOk(c: Cluster) {
    LogsFree(c) && AcksFree(c) && RequestsFree(c)
  }

  // ------------------------------------------------------------------ steps that leave no new unsent entry

  ghost predicate Fewer(c: Cluster, c': Cluster) {
    && |c'.nodes| == |c.nodes|
    && forall j, p {:trigger Unsent(c', j, p)} ::
         Unsent(c', j, p) ==> Unsent(c, j, p) && Full(c'.nodes[j])[p] == Full(c.nodes[j])[p]
  }

  lemma FreeStays(c: Cluster, c': Cluster, k: int, f: seq<Entry>, f': seq<Entry>)
    requires Fewer(c, c') && FreeBut(c, k, f) && f' <= f
    ensures FreeBut(c', k, f')
  {
    forall j, p | j != k && Unsent(c', j, p) ensures !Has(f', p, Full(c'.nodes[j])[p]) {
      assert Unsent(c, j, p);
    }
  }

  /** The records of terms may shrink, but not change otherwise. */
  ghost predicate Shrinks(r: Reigns, r': Reigns) {
    forall t <- r' :: t in r && r'[t].node == r[t].node && r'[t].log <= r[t].log
  }

  lemma SentStays(c: Cluster, c': Cluster, t: int, k: int)
    requires Fewer(c, c') && Shrinks(c.h.reigns, c'.h.reigns) && SentOk(c, t, k)
    ensures SentOk(c', t, k)
  {
    if t in c'.h.reigns && 0 <= k <= |c'.h.reigns[t].log| {
      FreeStays(c, c', -1, c.h.reigns[t].log[..k], c'.h.reigns[t].log[..k]);
    }
  }

  ghost predicate NewAcksFree(c: Cluster, h: History) {
    forall a <- h.acks :: a in c.h.acks || SentOk(c, a.term, a.len)
  }

  ghost predicate NewRequestsFree(c: Cluster, sent: set<Message>) {
    forall m <- sent :: IsRequest(m) ==> SentOk(c, m.append.term, Reach(m.append))
  }

  lemma UnsentStays(c: Cluster, i: nat, n: Node, sent: set<Message>, h: History)
    requires UnsentOk(c) && i < |c.nodes| && Fewer(c, With(c, i, n, sent, h))
    requires Shrinks(c.h.reigns, h.reigns) && FreeBut(c, i, Full(n))
    requires NewAcksFree(c, h) && NewRequestsFree(c, sent)
    ensures UnsentOk(With(c, i, n, sent, h))
  {
    var c' := With(c, i, n, sent, h);
    hide Fewer, FreeBut, SentOk, Unsent, IsRequest;
    forall k | 0 <= k < |c'.nodes| ensures FreeBut(c', k, Full(c'.nodes[k])) {
      FreeStays(c, c', k, Full(c'.nodes[k]), Full(c'.nodes[k]));
    }
    forall t <- h.reigns ensures FreeBut(c', h.reigns[t].node, h.reigns[t].log) {
      FreeStays(c, c', h.reigns[t].node, c.h.reigns[t].log, h.reigns[t].log);
    }
    forall a <- h.acks ensures SentOk(c', a.term, a.len) {
      SentStays(c, c', a.term, a.len);
    }
    forall m <- c'.net ensures IsRequest(m) ==> SentOk(c', m.append.term, Reach(m.append)) {
      if IsRequest(m) {
        SentStays(c, c', m.append.term, Reach(m.append));
      }
    }
  }

  /** A node whose log stays, and whose stable index does not fall. */
  lemma QuietUnsent(c: Cluster, i: nat, n: Node, sent: set<Message>, h: History)
    requires UnsentOk(c) && i < |c.nodes|
    requires Full(n) == Full(c.nodes[i]) && c.nodes[i].stable <= n.stable
    requires h.reigns == c.h.reigns && NewAcksFree(c, h) && NewRequestsFree(c, sent)
    ensures UnsentOk(With(c, i, n, sent, h))
  {
    var c' := With(c, i, n, sent, h);
    forall j, p | Unsent(c', j, p)
      ensures Unsent(c, j, p) && Full(c'.nodes[j])[p] == Full(c.nodes[j])[p]
    {}
    UnsentStays(c, i, n, sent, h);
  }

  /** A node that has nothing unsent afterwards, with a log free of what others have not sent. */
  lemma SettledUnsent(c: Cluster, i: nat, n: Node, sent: set<Message>, h: History)
    requires UnsentOk(c) && i < |c.nodes| && |Full(n)| <= n.stable && FreeBut(c, i, Full(n))
    requires h.reigns == c.h.reigns && NewAcksFree(c, h) && NewRequestsFree(c, sent)
    ensures UnsentOk(With(c, i, n, sent, h))
  {
    var c' := With(c, i, n, sent, h);
    forall j, p | Unsent(c', j, p)
      ensures Unsent(c, j, p) && Full(c'.nodes[j])[p] == Full(c.nodes[j])[p]
    {}
    UnsentStays(c, i, n, sent, h);
  }

  lemma PrefixFree(c: Cluster, k: int, f: seq<Entry>, f': seq<Entry>)
    requires FreeBut(c, k, f) && f' <= f
    ensures FreeBut(c, k, f')
  {}

  /** A log free of the unsent entries of all nodes but k, and of k's. */
  lemma FreeOfAll(c: Cluster, k: int, f: seq<Entry>)
    requires FreeBut(c, k, f) && forall p :: Unsent(c, k, p) ==> !Has(f, p, Full(c.nodes[k])[p])
    ensures Free(c, f)
  {}

  /** What has been committed has been acknowledged, and so is free. */
  lemma SettledIsFree(c: Cluster, f: seq<Entry>, hi: int)
    requires AcksFree(c) && CommitsOk(View(c)) && AcksOk(View(c)) && Settled(c.h, f, hi)
    ensures Free(c, f)
  {
    if f != [] {
      var s := View(c);
      var d :| d in c.h.commits && SettledBy(c.h, d, f, hi);
      var q: set<nat> :| IsQuorum(q, |s.nodes|) && AckedByAll(c.h, d.term, q, d.len);
      var v := QuorumsMeet(q, q, |s.nodes|);
      assert Acked(c.h, d.term, v, d.len);
      var a :| a in c.h.acks && a.term == d.term && a.node == v && a.len >= d.len;
      assert AckOk(s, a) && SentOk(c, a.term, a.len);
      var l := c.h.reigns[d.term].log;
      assert f <= l[..a.len] by {
        assert l[..a.len][..d.len] == l[..d.len];
      }
      PrefixFree(c, -1, l[..a.len], f);
    }
  }

  /** A leader's requests reach only up to its stable index. */
  lemma StablePrefixFree(c: Cluster, i: nat, k: int)
    requires LogsFree(c) && i < |c.nodes| && 0 <= k <= c.nodes[i].stable && k <= |Full(c.nodes[i])|
    ensures Free(c, Full(c.nodes[i])[..k])
  {
    PrefixFree(c, i, Full(c.nodes[i]), Full(c.nodes[i])[..k]);
    FreeOfAll(c, i, Full(c.nodes[i])[..k]);
  }

  // ------------------------------------------------------------------ a new leader, a new entry, an entry given up

  lemma WinUnsent(c: Cluster, i: nat, n: Node, h: History, t: int, voters: set<nat>)
    requires UnsentOk(c) && i < |c.nodes| && Full(n) == Full(c.nodes[i]) && n.stable == c.nodes[i].stable
    requires t !in c.h.reigns && h.acks == c.h.acks
    requires h.reigns == c.h.reigns[t := Reign(i, Full(n), Full(n), voters)]
    requires forall a <- c.h.acks :: a.term != t
    requires forall m <- c.net :: IsRequest(m) ==> m.append.term != t
    ensures UnsentOk(With(c, i, n, {}, h))
  {
    var c' := With(c, i, n, {}, h);
    hide FreeBut;
    assert Fewer(c, c');
    forall k | 0 <= k < |c'.nodes| ensures FreeBut(c', k, Full(c'.nodes[k])) {
      FreeStays(c, c', k, Full(c'.nodes[k]), Full(c'.nodes[k]));
    }
    forall u <- h.reigns ensures FreeBut(c', h.reigns[u].node, h.reigns[u].log) {
      FreeStays(c, c', h.reigns[u].node, h.reigns[u].log, h.reigns[u].log);
    }
    forall a <- h.acks ensures SentOk(c', a.term, a.len) {
      assert SentOk(c, a.term, a.len);
      SentElsewhere(c, c', a.term, a.len);
    }
    forall m <- c'.net ensures IsRequest(m) ==> SentOk(c', m.append.term, Reach(m.append)) {
      if IsRequest(m) {
        assert SentOk(c, m.append.term, Reach(m.append));
        SentElsewhere(c, c', m.append.term, Reach(m.append));
      }
    }
  }

  lemma SentElsewhere(c: Cluster, c': Cluster, t: int, k: int)
    requires Fewer(c, c') && SentOk(c, t, k)
    requires t in c'.h.reigns ==> t in c.h.reigns && c'.h.reigns[t].log == c.h.reigns[t].log
    ensures SentOk(c', t, k)
  {
    if t in c'.h.reigns && 0 <= k <= |c'.h.reigns[t].log| {
      FreeStays(c, c', -1, c.h.reigns[t].log[..k], c'.h.reigns[t].log[..k]);
    }
  }

  /** No rooted log holds what the leader is about to append. */
  lemma NotYet(r: Reigns, f: seq<Entry>, e: Entry)
    requires Rooted(r, f) && e.term in r
    ensures !Has(f, |r[e.term].log|, e)
  {
    var p := |r[e.term].log|;
    assert p < |f| ==> RootedAt(r, f, p);
  }

  /** The new entry of leader i is one more unsent entry, which nobody else has. */
  lemma FreeOfNew(c: Cluster, i: nat, n: Node, h: History, k: int, f: seq<Entry>, e: Entry)
    requires i < |c.nodes| && n.stable == c.nodes[i].stable && Full(n) == Full(c.nodes[i]) + [e]
    requires FreeBut(c, k, f) && (k == i || !Has(f, |Full(c.nodes[i])|, e))
    ensures FreeBut(With(c, i, n, {}, h), k, f)
  {
    var c' := With(c, i, n, {}, h);
    forall j, p | j != k && Unsent(c', j, p) ensures !Has(f, p, Full(c'.nodes[j])[p]) {
      assert (j == i && p == |Full(c.nodes[i])|) || Unsent(c, j, p);
    }
  }

  ghost predicate Appends(c: Cluster, i: nat, n: Node, h: History, e: Entry) {
    && i < |c.nodes| && n.stable == c.nodes[i].stable && Full(n) == Full(c.nodes[i]) + [e]
    && e.term in c.h.reigns && c.h.reigns[e.term].node == i && c.h.reigns[e.term].log == Full(c.nodes[i])
    && h.acks == c.h.acks && h.reigns == c.h.reigns[e.term := c.h.reigns[e.term].(log := Full(n))]
    && LinesOk(c.h.reigns) && (forall j :: 0 <= j < |c.nodes| ==> Rooted(c.h.reigns, Full(c.nodes[j])))
  }

  lemma AppendSent(c: Cluster, i: nat, n: Node, h: History, e: Entry, t: int, k: int)
    requires Appends(c, i, n, h, e) && SentOk(c, t, k)
    requires t in c.h.reigns ==> k <= |c.h.reigns[t].log|
    ensures SentOk(With(c, i, n, {}, h), t, k)
  {
    if t in h.reigns && 0 <= k {
      var f := c.h.reigns[t].log;
      assert LineOk(c.h.reigns, t);
      NotYet(c.h.reigns, f, e);
      assert h.reigns[t].log[..k] == f[..k];
      FreeOfNew(c, i, n, h, -1, f[..k], e);
    }
  }

  lemma AppendLogFree(c: Cluster, i: nat, n: Node, h: History, e: Entry, k: nat)
    requires Appends(c, i, n, h, e) && LogsFree(c) && k < |c.nodes|
    ensures FreeBut(With(c, i, n, {}, h), k, Full(With(c, i, n, {}, h).nodes[k]))
  {
    NotYet(c.h.reigns, Full(c.nodes[k]), e);
    if k == i {
      OwnNew(c, i, n, e);
      FreeOfNew(c, i, n, h, i, Full(n), e);
    } else {
      FreeOfNew(c, i, n, h, k, Full(c.nodes[k]), e);
    }
  }

  lemma AppendReignFree(c: Cluster, i: nat, n: Node, h: History, e: Entry, t: int)
    requires Appends(c, i, n, h, e) && LogsFree(c) && t in c.h.reigns
    ensures FreeBut(With(c, i, n, {}, h), h.reigns[t].node, h.reigns[t].log)
  {
    if t == e.term {
      forall j | 0 <= j < |c.nodes| ensures !Has(Full(c.nodes[j]), |Full(c.nodes[i])|, e) {
        NotYet(c.h.reigns, Full(c.nodes[j]), e);
      }
      OwnNew(c, i, n, e);
      FreeOfNew(c, i, n, h, i, Full(n), e);
    } else {
      assert LineOk(c.h.reigns, t);
      NotYet(c.h.reigns, c.h.reigns[t].log, e);
      FreeOfNew(c, i, n, h, c.h.reigns[t].node, c.h.reigns[t].log, e);
    }
  }

  /** The lengthened log is as free of the other nodes' unsent entries as it was. */
  lemma OwnNew(c: Cluster, i: nat, n: Node, e: Entry)
    requires i < |c.nodes| && LogsFree(c) && Full(n) == Full(c.nodes[i]) + [e]
    requires forall j :: 0 <= j < |c.nodes| ==> Rooted(c.h.reigns, Full(c.nodes[j]))
    requires e.term in c.h.reigns && c.h.reigns[e.term].log == Full(c.nodes[i])
    ensures FreeBut(c, i, Full(n))
  {
    forall j, p | j != i && Unsent(c, j, p) ensures !Has(Full(n), p, Full(c.nodes[j])[p]) {
      NotYet(c.h.reigns, Full(c.nodes[j]), e);
      assert !Has(Full(c.nodes[i]), p, Full(c.nodes[j])[p]);
    }
  }

  ghost predicate WithinReigns(c: Cluster) {
    && (forall a <- c.h.acks :: a.term in c.h.reigns ==> a.len <= |c.h.reigns[a.term].log|)
    && (forall m <- c.net :: IsRequest(m) && m.append.term in c.h.reigns ==>
          Reach(m.append) <= |c.h.reigns[m.append.term].log|)
  }

  lemma AppendUnsent(c: Cluster, i: nat, n: Node, h: History, e: Entry)
    requires UnsentOk(c) && Appends(c, i, n, h, e) && WithinReigns(c)
    ensures UnsentOk(With(c, i, n, {}, h))
  {
    hide FreeBut, SentOk;
    var c' := With(c, i, n, {}, h);
    forall k | 0 <= k < |c'.nodes| ensures FreeBut(c', k, Full(c'.nodes[k])) {
      AppendLogFree(c, i, n, h, e, k);
    }
    forall t <- h.reigns ensures FreeBut(c', h.reigns[t].node, h.reigns[t].log) {
      AppendReignFree(c, i, n, h, e, t);
    }
    forall a <- h.acks ensures SentOk(c', a.term, a.len) {
      AppendSent(c, i, n, h, e, a.term, a.len);
    }
    forall m <- c'.net ensures IsRequest(m) ==> SentOk(c', m.append.term, Reach(m.append)) {
      if IsRequest(m) {
        AppendSent(c, i, n, h, e, m.append.term, Reach(m.append));
      }
    }
  }

  /** Giving up the end of a log. */
  lemma GiveUpUnsent(c: Cluster, i: nat, n: Node, h: History, p: nat, e: Entry)
    requires UnsentOk(c) && i < |c.nodes| && n.stable == c.nodes[i].stable && Full(n) <= Full(c.nodes[i])
    requires h.acks == c.h.acks && h.reigns == Forget(c.h.reigns, p, e)
    ensures UnsentOk(With(c, i, n, {}, h))
  {
    assert FreeBut(c, i, Full(c.nodes[i]));
    PrefixFree(c, i, Full(c.nodes[i]), Full(n));
    assert Fewer(c, With(c, i, n, {}, h));
    UnsentStays(c, i, n, {}, h);
  }
}
