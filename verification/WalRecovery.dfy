/**
  The log in memory and the log that a restart would recover. A follower writes the entries of a request
  to the write-ahead log before it changes its own; replaying them gives the log with the repaired
  conflict rule, and the log as written only when nothing stale stays behind.
 */
module WalRecovery {
  import opened RaftTypes
  import opened RaftNode
  import opened WalReplay
  import opened Cluster
  import opened LogMerge
  import D = RaftDepartures

  /** The entries handed to the write-ahead log for the decided writes. */
  function Logged(ws: seq<Write>): (es: seq<Entry>)
    ensures |es| == |ws| && forall k :: 0 <= k < |es| ==> es[k] == ws[k].entry
  {
    if ws == [] then [] else [ws[0].entry] + Logged(ws[1..])
  }

  lemma {:induction false} LoggedFirst(ws: seq<Write>)
    requires ws != []
    ensures Logged(ws) == [ws[0].entry] + Logged(ws[1..])
  {}

  // ------------------------------------------------------------------ replaying decided writes

  /** Replaying the entry of index q + 1 onto a log that shares the leader's first q entries. */
  lemma ReplayedOne(d: seq<Entry>, log: seq<Entry>, l: seq<Entry>, q: nat)
    requires Numbered(l, 0) && q < |l| && Numbered(log, |d|) && l[..q] <= d + log && d <= l
    ensures var log' := Step(|d|, log, l[q]);
      && d + log' == (if q < |d| then d + log else l[..q + 1]) && Numbered(log', |d|) && l[..q + 1] <= d + log'
  {
    if q < |d| {
      assert l[..q + 1] == d[..q + 1];
    } else {
      var k := q - |d|;
      assert l[..q] == (d + log)[..q] == d + log[..k];
      assert l[..q + 1] == l[..q] + [l[q]];
      assert d + (log[..k] + [l[q]]) == (d + log[..k]) + [l[q]];
    }
  }

  /** Replaying all of them: the leader's entries up to the last one, unless a snapshot covers that. */
  lemma {:induction false} ReplayedAll(n: Node, log: seq<Entry>, l: seq<Entry>, q: int, ws: seq<Write>)
    requires D.Writing(n, l, q, ws) && Numbered(log, n.snapIndex) && l[..q] <= n.snapData + log
    ensures var end := q + |ws|;
      n.snapData + ReplayOnto(n.snapIndex, log, Logged(ws))
      == if ws == [] || end <= n.snapIndex then n.snapData + log else l[..end]
    decreases ws
  {
    if ws != [] {
      D.WritingRest(n, l, q, ws);
      LoggedFirst(ws);
      ReplayHead(n.snapIndex, log, l[q], Logged(ws[1..]));
      ReplayedOne(n.snapData, log, l, q);
      ReplayedAll(n, Step(n.snapIndex, log, l[q]), l, q + 1, ws[1..]);
    }
  }

  lemma ReplayAfter(s: int, es: seq<Entry>, fs: seq<Entry>)
    ensures Replay(s, es + fs) == ReplayOnto(s, Replay(s, es), fs)
  {
    ReplayConcat(s, [], es, fs);
  }

  /**
    A request whose entries went to the write-ahead log in the gap and whose writes still fit behind it.
    What a restart would recover is the log in memory after the repaired update exactly when that log did
    not hold more than the request already; after the update as written exactly when the request reaches
    its end. In both cases a request that writes nothing above the snapshot changes nothing.
   */
  lemma RecoveredBehindGap(n: Node, l: seq<Entry>, q: int, ws: seq<Write>, wal: seq<Entry>)
    requires D.Writing(n, l, q, ws) && Matching(Full(n), l) && l[..q] <= Full(n)
    requires Check(n, ws, LastIndex(n)).Fits? && Replay(n.snapIndex, wal) == n.log
    ensures var recovered, end := Replay(n.snapIndex, wal + Logged(ws)), q + |ws|;
      && (recovered == Apply(Intended, n.log, n.snapIndex, ws)
          <==> ws == [] || end <= n.snapIndex || !(l[..end] < Full(n)))
      && (recovered == Apply(AsWritten, n.log, n.snapIndex, ws)
          <==> ws == [] || end <= n.snapIndex || LastIndex(n) <= end)
  {
    hide Replay, ReplayOnto, Apply, Check;
    var d, f, end := n.snapData, Full(n), q + |ws|;
    var recovered := Replay(n.snapIndex, wal + Logged(ws));
    var written, intended := Apply(AsWritten, n.log, n.snapIndex, ws), Apply(Intended, n.log, n.snapIndex, ws);
    assert LastIndex(n) == |f|;
    ReplayAfter(n.snapIndex, wal, Logged(ws));
    ReplayedAll(n, n.log, l, q, ws);
    D.PlacedExactly(n, l, q, ws);
    D.OverlaidSelf(f, l, q);
    D.WritesOverlay(n, l, q, ws, n.log);
    Sized(d, n.log, l, q, end, ws == []);
    hide D.Overlaid, D.Writing, Matching, Numbered, IndexOk;
    D.SameBehind(d, recovered, intended);
    D.SameBehind(d, recovered, written);
  }

  /** Three ways of continuing a log that shares the leader's first q entries. */
  lemma Sized(d: seq<Entry>, log: seq<Entry>, l: seq<Entry>, q: nat, end: nat, none: bool)
    requires q <= end <= |l| && (none ==> q == end) && d <= l && l[..q] <= d + log
    ensures var f := d + log;
      var recovered := if none || end <= |d| then f else l[..end];
      && (recovered == (if l[..end] <= f then f else l[..end]) <==> none || end <= |d| || !(l[..end] < f))
      && (recovered == D.Overlaid(f, l, end) <==> none || end <= |d| || |f| <= end)
  {
    var f := d + log;
    if none || end <= |d| {
      assert l[..end] <= f by {
        assert end <= |d| ==> l[..end] == d[..end];
      }
      D.OverlaidSelf(f, l, end);
    } else if |f| <= end {
      assert D.Overlaid(f, l, end) == l[..end];
    }
  }

  // ------------------------------------------------------------------ without interference

  /** The decided writes begin at the first difference, and fit the log they were decided on. */
  lemma {:induction false} DecidedFit(n: Node, l: seq<Entry>, p: int, es: seq<Entry>, last: int)
    requires Facing(n, l, p, es) && (es != [] ==> Differs(Full(n), l, p)) && n.snapIndex <= p
    requires last == Max(p, |Full(n)|)
    ensures Check(n, Writes(n, es), last).Fits?
    decreases es
  {
    if es != [] {
      FacingStep(n, l, p, es);
      if |es| > 1 {
        DiffersOn(Full(n), l, p);
      }
      assert LastIndex(n) == |Full(n)|;
      assert p < |Full(n)| ==> Full(n)[p] == n.log[p - n.snapIndex];
      DecidedFit(n, l, p + 1, es[1..], Max(p + 1, |Full(n)|));
      var ws, rest := Writes(n, es), Writes(n, es[1..]);
      assert ws[1..] == rest && ws[0].entry.index == p + 1;
    }
  }

  lemma {:induction false} FirstWritten(n: Node, l: seq<Entry>, p: int, es: seq<Entry>) returns (q: int)
    requires Facing(n, l, p, es) && l[..p] <= Full(n)
    ensures p <= q <= p + |es| && l[..q] <= Full(n) && Facing(n, l, q, es[q - p..])
    ensures q < p + |es| ==> Differs(Full(n), l, q)
    ensures Writes(n, es) == Writes(n, es[q - p..])
    decreases es
  {
    q := p;
    assert es != [] && !Differs(Full(n), l, p) ==> Full(n)[..p + 1] == l[..p + 1];
    hide Writes, Matching;
    if es != [] && !Differs(Full(n), l, p) {
      FacingStep(n, l, p, es);
      SharedSkipped(n, es);
      hide Facing;
      q := FirstWritten(n, l, p + 1, es[1..]);
      assert es[1..][q - p - 1..] == es[q - p..];
    } else {
      assert es[0..] == es;
    }
  }

  /**
    What a follower recovers after writing a request's entries to its write-ahead log is its log in memory
    after the repaired update. After the update as written it is that log exactly when there is nothing to
    write or the request reaches the end of the log.
   */
  lemma RecoveredIsMemory(n: Node, l: seq<Entry>, p: int, es: seq<Entry>, wal: seq<Entry>)
    requires Facing(n, l, p, es) && l[..p] <= Full(n) && Replay(n.snapIndex, wal) == n.log
    ensures var ws := Writes(n, es);
      var recovered := Replay(n.snapIndex, wal + Logged(ws));
      && recovered == Apply(Intended, n.log, n.snapIndex, ws)
      && (recovered == Apply(AsWritten, n.log, n.snapIndex, ws) <==> ws == [] || LastIndex(n) <= p + |es|)
  {
    hide Replay, Writes, Apply, Check;
    var q := FirstWritten(n, l, p, es);
    var rest := es[q - p..];
    var ws := Writes(n, es);
    AllWritten(n, l, q, rest);
    assert LastIndex(n) == |Full(n)|;
    if rest == [] {
      assert ws == [];
      NothingWritten(n);
      assert wal + Logged(ws) == wal;
    } else {
      NotInSnapshot(n, l, q);
      DecidedFit(n, l, q, rest, |Full(n)|);
      forall k | 0 <= k < |ws| ensures ws[k].entry == l[q + k] {
        assert rest[k] == l[q..q + |rest|][k];
      }
      DifferenceStays(Full(n), l, q, q + |rest|);
      RecoveredBehindGap(n, l, q, ws, wal);
    }
  }

  lemma NothingWritten(n: Node)
    ensures Apply(Intended, n.log, n.snapIndex, []) == n.log && Apply(AsWritten, n.log, n.snapIndex, []) == n.log
  {}

  lemma DifferenceStays(f: seq<Entry>, l: seq<Entry>, q: nat, end: nat)
    requires q < end <= |l| && Differs(f, l, q)
    ensures !(l[..end] <= f)
  {
    assert l[..end][q] == l[q];
  }

  // ------------------------------------------------------------------ a whole run of a follower

  /** One after the other: requests of leaders with logs l, and snapshots of the follower's own. */
  datatype Change = Take(l: seq<Entry>, prev: int, entries: seq<Entry>) | Snap(index: int)

  /** A snapshot of the whole log is harmless only if nothing behind it was ever on disk (WalReplay.LaterSnapshotExact). */
  ghost predicate Possible(n: Node, wal: seq<Entry>, ch: Change) {
    && IndexOk(n) && |n.snapData| == n.snapIndex
    && (ch.Take? ==> Facing(n, ch.l, ch.prev, ch.entries) && ch.l[..ch.prev] <= Full(n))
    && (ch.Snap? ==> n.snapIndex < ch.index <= LastIndex(n) && (ch.index < LastIndex(n) || !Starts(ch.index, wal)))
  }

  /** The node and its write-ahead log after a change. */
  ghost function Changed(n: Node, wal: seq<Entry>, ch: Change): (Node, seq<Entry>)
    requires Possible(n, wal, ch)
  {
    match ch
    case Take(_, _, es) =>
      (n.(log := Apply(Intended, n.log, n.snapIndex, Writes(n, es))), wal + Logged(Writes(n, es)))
    case Snap(i) =>
      var k := i - n.snapIndex;
      (n.(snapIndex := i, snapData := n.snapData + n.log[..k], log := n.log[k..]), wal)
  }

  ghost predicate AllPossible(n: Node, wal: seq<Entry>, chs: seq<Change>)
    decreases chs
  {
    chs != [] ==>
      Possible(n, wal, chs[0]) && var (m, w) := Changed(n, wal, chs[0]); AllPossible(m, w, chs[1..])
  }

  ghost function AllChanged(n: Node, wal: seq<Entry>, chs: seq<Change>): (Node, seq<Entry>)
    requires AllPossible(n, wal, chs)
    decreases chs
  {
    if chs == [] then (n, wal) else var (m, w) := Changed(n, wal, chs[0]); AllChanged(m, w, chs[1..])
  }

  lemma ChangeRecovered(n: Node, wal: seq<Entry>, ch: Change)
    requires Possible(n, wal, ch) && Replay(n.snapIndex, wal) == n.log
    ensures var (m, w) := Changed(n, wal, ch); Replay(m.snapIndex, w) == m.log
  {
    hide Replay, Apply, Writes;
    match ch
    case Take(l, p, es) => RecoveredIsMemory(n, l, p, es, wal);
    case Snap(i) => LaterSnapshotExact(n.snapIndex, i, wal);
  }

  /** Through every run of repaired updates and snapshots, a restart would recover the log in memory. */
  lemma {:induction false} RecoveredThroughout(n: Node, wal: seq<Entry>, chs: seq<Change>)
    requires AllPossible(n, wal, chs) && Replay(n.snapIndex, wal) == n.log
    ensures var (m, w) := AllChanged(n, wal, chs); Replay(m.snapIndex, w) == m.log
    decreases chs
  {
    hide Replay, Changed, Possible;
    if chs != [] {
      ChangeRecovered(n, wal, chs[0]);
      var (m, w) := Changed(n, wal, chs[0]);
      RecoveredThroughout(m, w, chs[1..]);
    }
  }
}
