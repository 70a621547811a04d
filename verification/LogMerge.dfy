/**
  The follower's half of replication on whole logs: which entries a request makes it write, and
  that applying them merges its log with the leader's.
 */
module LogMerge {
  import opened RaftTypes
  import opened RaftNode
  import opened Protocol
  import opened Cluster
  import P = ProtocolSteps

  /** Log matching between two logs. */
  ghost predicate Matching(f: seq<Entry>, l: seq<Entry>) {
    forall k :: 0 <= k < |f| && k < |l| && f[k].term == l[k].term ==> f[..k + 1] == l[..k + 1]
  }

  lemma RootedMatching(r: Reigns, f: seq<Entry>, l: seq<Entry>)
    requires Rooted(r, f) && Rooted(r, l)
    ensures Matching(f, l)
  {
    forall k | 0 <= k < |f| && k < |l| && f[k].term == l[k].term ensures f[..k + 1] == l[..k + 1] {
      LogMatching(r, f, l, k);
    }
  }

  /** Position p of l is not in f. */
  ghost predicate Differs(f: seq<Entry>, l: seq<Entry>, p: int)
    requires 0 <= p < |l|
  {
    p >= |f| || f[p].term != l[p].term
  }

  /** Logs that differ at a position differ at the next. */
  lemma DiffersOn(f: seq<Entry>, l: seq<Entry>, p: int)
    requires Matching(f, l) && 0 <= p && p + 1 < |l|
    ensures Differs(f, l, p) ==> Differs(f, l, p + 1)
  {
    if p + 1 < |f| && f[p + 1].term == l[p + 1].term {
      SharedAt(f, l, p + 2, p);
    }
  }

  lemma SharedAt(f: seq<Entry>, l: seq<Entry>, k: int, p: int)
    requires 0 <= p < k <= |f| && k <= |l| && f[..k] == l[..k]
    ensures f[p] == l[p]
  {
    assert f[..k][p] == l[..k][p];
  }

  /** The node's log and the leader's, and the slice of the leader's a request brings. */
  ghost predicate Facing(n: Node, l: seq<Entry>, p: int, es: seq<Entry>) {
    && IndexOk(n) && |n.snapData| == n.snapIndex
    && Numbered(l, 0) && Matching(Full(n), l)
    && n.snapData <= l
    && 0 <= p && p + |es| <= |l| && es == l[p..p + |es|]
  }

  lemma FacingStep(n: Node, l: seq<Entry>, p: int, es: seq<Entry>)
    requires Facing(n, l, p, es) && es != []
    ensures Facing(n, l, p + 1, es[1..]) && es[0] == l[p] && es[0].index == p + 1
  {
    assert es[1..] == l[p + 1..p + |es|];
  }

  /** After the first difference every entry is written. */
  lemma {:induction false} AllWritten(n: Node, l: seq<Entry>, p: int, es: seq<Entry>)
    requires Facing(n, l, p, es) && (es != [] ==> Differs(Full(n), l, p))
    ensures var ws := Writes(n, es); |ws| == |es| && forall k :: 0 <= k < |ws| ==> ws[k].entry == es[k]
    decreases es
  {
    if es != [] {
      FacingStep(n, l, p, es);
      if |es| > 1 {
        DiffersOn(Full(n), l, p);
      }
      AllWritten(n, l, p + 1, es[1..]);
      NotInSnapshot(n, l, p);
      var e := es[0];
      assert Writes(n, es)[1..] == Writes(n, es[1..]);
    }
  }

  lemma NotInSnapshot(n: Node, l: seq<Entry>, p: int)
    requires |n.snapData| == n.snapIndex && 0 <= p < |l| && n.snapData <= l
    ensures Differs(Full(n), l, p) ==> p >= n.snapIndex
  {
    assert p < n.snapIndex ==> Full(n)[p] == n.snapData[p];
  }

  /** The writes are the entries behind what the two logs share. */
  ghost predicate Suffix(ws: seq<Write>, es: seq<Entry>) {
    |ws| <= |es| && forall k :: 0 <= k < |ws| ==> ws[k].entry == es[|es| - |ws| + k]
  }

  lemma {:induction false} WritesAreSuffix(n: Node, l: seq<Entry>, p: int, es: seq<Entry>)
    requires Facing(n, l, p, es) && l[..p] <= Full(n)
    ensures Suffix(Writes(n, es), es)
    ensures l[..p + |es| - |Writes(n, es)|] <= Full(n)
    decreases es
  {
    if es != [] {
      FacingStep(n, l, p, es);
      if Differs(Full(n), l, p) {
        AllWritten(n, l, p, es);
      } else {
        assert Full(n)[..p + 1] == l[..p + 1];
        SharedSkipped(n, es);
        WritesAreSuffix(n, l, p + 1, es[1..]);
        SuffixOfTail(Writes(n, es[1..]), es);
      }
    }
  }

  lemma SuffixOfTail(ws: seq<Write>, es: seq<Entry>)
    requires es != [] && Suffix(ws, es[1..])
    ensures Suffix(ws, es)
  {
    forall k | 0 <= k < |ws| ensures ws[k].entry == es[|es| - |ws| + k] {
      assert es[1..][|es| - 1 - |ws| + k] == es[|es| - |ws| + k];
    }
  }

  /** An entry that the node already has is not written. */
  lemma SharedSkipped(n: Node, es: seq<Entry>)
    requires IndexOk(n) && |n.snapData| == n.snapIndex && es != []
    requires 1 <= es[0].index <= |Full(n)| && Full(n)[es[0].index - 1].term == es[0].term
    ensures Writes(n, es) == Writes(n, es[1..])
  {
    var i := es[0].index;
    assert LastIndex(n) == |Full(n)|;
    if i > n.snapIndex {
      assert Full(n)[i - 1] == n.log[i - n.snapIndex - 1];
    }
  }

  lemma MergesTrans(f: seq<Entry>, g: seq<Entry>, h: seq<Entry>, l: seq<Entry>)
    requires P.Merges(f, g, l) && P.Merges(g, h, l)
    ensures P.Merges(f, h, l)
  {
    if f != g && g != h {
      forall k | 0 <= k <= |f| && k <= |l| && f[..k] == l[..k] ensures f[..k] <= h {
        assert f[..k] <= g;
        assert g[..k] == f[..k];
      }
    }
  }

  /** One placed entry extends the shared prefix by one. */
  lemma PlaceMerges(d: seq<Entry>, log: seq<Entry>, l: seq<Entry>, q: int)
    requires Numbered(l, 0) && d <= l && 0 <= q < |l| && l[..q] <= d + log && Matching(d + log, l)
    ensures var log' := if l[q].index <= |d| then log else Place(log, |d|, l[q]);
      && l[..q + 1] <= d + log' && P.Merges(d + log, d + log', l) && Matching(d + log', l)
      && (log' == log || |d + log'| == q + 1)
  {
    var f := d + log;
    if q < |d| {
      assert l[..q + 1] == d[..q + 1];
    } else {
      var k := q - |d|;
      if k < |log| && log[k].term == l[q].term {
        assert f[q] == log[k];
        assert f[..q + 1] == l[..q + 1];
      } else {
        var f' := d + (log[..k] + [l[q]]);
        assert f' == f[..q] + [l[q]];
        assert f' == l[..q + 1];
        forall j | 0 <= j <= |f| && j <= |l| && f[..j] == l[..j] ensures f[..j] <= f' {
          assert q < |f| ==> f[q] == log[k];
          if j > q {
            SharedAt(f, l, j, q);
          }
        }
      }
    }
  }

  lemma {:induction false} ApplyMerges(d: seq<Entry>, log: seq<Entry>, l: seq<Entry>, q: int, ws: seq<Write>)
    requires Numbered(l, 0) && d <= l && 0 <= q && q + |ws| <= |l|
    requires l[..q] <= d + log && Matching(d + log, l)
    requires forall k :: 0 <= k < |ws| ==> ws[k].entry == l[q + k]
    ensures var log' := Apply(Intended, log, |d|, ws);
      && l[..q + |ws|] <= d + log' && P.Merges(d + log, d + log', l)
      && (log' == log || |d + log'| <= q + |ws|)
    decreases ws
  {
    if ws != [] {
      PlaceMerges(d, log, l, q);
      var log1 := if l[q].index <= |d| then log else Place(log, |d|, l[q]);
      forall k | 0 <= k < |ws[1..]| ensures ws[1..][k].entry == l[q + 1 + k] {
        assert ws[1..][k] == ws[k + 1];
      }
      ApplyMerges(d, log1, l, q + 1, ws[1..]);
      MergesTrans(d + log, d + log1, d + Apply(Intended, log, |d|, ws), l);
    }
  }

  /** A merged log is as well numbered as the two it comes from. */
  lemma MergesNumbered(f: seq<Entry>, f': seq<Entry>, l: seq<Entry>)
    requires P.Merges(f, f', l) && Numbered(f, 0) && Numbered(l, 0)
    ensures Numbered(f', 0)
  {}
}
