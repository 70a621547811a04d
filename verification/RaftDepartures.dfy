/**
  Three handlers that miss their purpose as written, and exactly when. Each is compared with the
  repaired form that the cluster theorems use.
 */
module RaftDepartures {
  import opened RaftTypes
  import opened RaftNode
  import opened Cluster
  import opened LogMerge
  import R = RaftIndices
  import P = ProtocolSteps

  // ------------------------------------------------------------------ heartbeats

  /** The request for everything stable after prev always reaches the stable index if that is in the log. */
  lemma BeatSends(n: Node, prev: int)
    requires NodeOk(n) && R.StableInLog(n) && Holds(n, prev) && prev <= n.stable
    ensures var b := BeatFrom(n, prev).1;
      && b.Send? && b.args.prevIndex == prev && prev + |b.args.entries| == n.stable
      && b.args.prevTerm == TermAt(n, prev)
      && b.args.term == n.term && b.args.leader == n.id && b.args.leaderCommit == n.commit
      && forall k :: 0 <= k < |b.args.entries| ==> b.args.entries[k] == n.log[prev + k - n.snapIndex]
  {}

  /** Which request a heartbeat is, if it is one. */
  lemma HeartbeatIsBeat(mode: Mode, n: Node, p: nat)
    requires NodeOk(n) && R.StableInLog(n) && n.role == Leader && p < n.size && p != n.id
    requires n.snapIndex < n.next[p] <= (if mode == Intended then LastIndex(n) else n.stable) + 1 && 1 <= n.next[p]
    ensures Heartbeat(mode, n, p).1 == BeatFrom(n, Min(n.next[p] - 1, n.stable)).1
  {
    hide BeatFrom;
    if n.next[p] - 1 > n.stable {
      SameBeat(n, n.(next := n.next[p := n.stable + 1]), n.stable);
    }
  }

  /** A request does not depend on the next indices. */
  lemma SameBeat(n: Node, m: Node, prev: int)
    requires NodeOk(n) && NodeOk(m) && m == n.(next := m.next) && Holds(n, prev) && prev <= n.stable
    ensures BeatFrom(m, prev).1 == BeatFrom(n, prev).1
  {}

  /** The highest next index that a heartbeat can serve. */
  function Top(mode: Mode, n: Node): int {
    (if mode == Intended then LastIndex(n) else Min(n.stable, LastIndex(n))) + 1
  }

  /**
    As written, a heartbeat is sent exactly when the peer's next index is at most one above the stable
    index; the clamp never takes effect. With the clamp put before the copy, every index up to the end of
    the log can be served. Neither form sends anything while the stable index lies above the log, and an
    index behind the end of the log is a read out of range.
   */
  lemma HeartbeatExact(mode: Mode, n: Node, p: nat)
    requires NodeOk(n) && n.role == Leader && p < n.size && p != n.id
    ensures var b, i := Heartbeat(mode, n, p).1, n.next[p];
      && (b.Send? <==> R.StableInLog(n) && n.snapIndex < i <= Top(mode, n))
      && (b.Lagging? <==> 1 <= i <= n.snapIndex)
      && (b.OutOfRange? <==> i > LastIndex(n) + 1)
      && (b.Abort? <==> i < 1 || (n.snapIndex < i <= LastIndex(n) + 1 && (i > Top(mode, n) || !R.StableInLog(n))))
  {
    hide BeatFrom;
    if R.StableInLog(n) {
      if n.snapIndex < n.next[p] <= Top(mode, n) {
        HeartbeatIsBeat(mode, n, p);
        BeatSends(n, Min(n.next[p] - 1, n.stable));
      }
    } else if n.snapIndex < n.next[p] <= LastIndex(n) + 1 {
      BeatFails(n, n.next[p] - 1);
    }
  }

  /** A request that cannot reach the stable index is not sent. */
  lemma BeatFails(n: Node, prev: int)
    requires NodeOk(n) && !R.StableInLog(n) && Holds(n, prev) && prev <= n.stable
    ensures BeatFrom(n, prev).1.Abort?
  {}

  /** All that a heartbeat changes is the peer's next index, where that is clamped to the stable index. */
  lemma HeartbeatClamps(mode: Mode, n: Node, p: nat)
    requires NodeOk(n) && p < n.size
    ensures var m, i := Heartbeat(mode, n, p).0, n.next[p];
      var clamps := n.role == Leader && p != n.id && 1 <= i && n.snapIndex < i <= LastIndex(n) + 1 && i > n.stable + 1;
      && m == n.(next := m.next) && |m.next| == |n.next|
      && (forall q :: 0 <= q < |n.next| ==> m.next[q] == if q == p && clamps then n.stable + 1 else n.next[q])
  {
    hide BeatFrom;
    BeatNode(n.(next := n.next[p := n.stable + 1]), n.stable);
    BeatNode(n, n.next[p] - 1);
  }

  lemma BeatNode(n: Node, prev: int)
    ensures IndexOk(n) && Holds(n, prev) && prev <= n.stable ==> BeatFrom(n, prev).0 == n
  {}

  /** What is sent, in either form: the entries behind prev, in order, up to exactly the stable index. */
  lemma HeartbeatCovers(mode: Mode, n: Node, p: nat, k: nat)
    requires NodeOk(n) && p < n.size && p != n.id && Heartbeat(mode, n, p).1.Send?
    ensures var a := Heartbeat(mode, n, p).1.args;
      && a.prevIndex + |a.entries| == n.stable && a.prevIndex == Min(n.next[p] - 1, n.stable)
      && a.term == n.term && a.leader == n.id && a.leaderCommit == n.commit
      && Holds(n, a.prevIndex) && a.prevTerm == TermAt(n, a.prevIndex)
      && (k < |a.entries| ==> a.entries[k].index == a.prevIndex + 1 + k
                              && Holds(n, a.prevIndex + 1 + k) && a.entries[k] == n.log[a.prevIndex + k - n.snapIndex])
  {
    assert n.role == Leader;
    hide BeatFrom, Heartbeat;
    HeartbeatExact(mode, n, p);
    HeartbeatIsBeat(mode, n, p);
    BeatSends(n, Min(n.next[p] - 1, n.stable));
  }

  /** A leader of term 1 with these commands in its log, the first of them stable, that will send p what is behind next. */
  function LeaderWith(commands: seq<string>, stable: int, next: int): Node {
    Node(0, 2, 1, 0, Leader, seq(|commands|, k requires 0 <= k < |commands| => Entry(commands[k], 1, k + 1)),
         0, 0, [], 0, stable, 0, [0, next], [0, 0], 2, {1}, {})
  }

  /**
    A new leader, whose next indices lie behind its last entry, with that entry not on disk yet: as
    written its first heartbeat fails. If the write has failed before it, the read is out of range.
   */
  lemma HeartbeatFails(x: string)
    ensures var n := LeaderWith([x], 0, 2);
      && NodeOk(n) && Heartbeat(AsWritten, n, 1).1.Abort? && Heartbeat(Intended, n, 1).1.Send?
      && Heartbeat(AsWritten, LogFailed(n, 1), 1).1.OutOfRange?
  {
    var n := LeaderWith([x], 0, 2);
    assert LogFailed(n, 1).log == [];
    HeartbeatExact(AsWritten, n, 1);
    HeartbeatExact(Intended, n, 1);
    HeartbeatExact(AsWritten, LogFailed(n, 1), 1);
  }

  // ------------------------------------------------------------------ conflicts

  /** The entries a request brings, laid over the old log slot by slot. */
  function Overlaid(f: seq<Entry>, l: seq<Entry>, end: nat): seq<Entry>
    requires end <= |l|
  {
    l[..end] + (if end <= |f| then f[end..] else [])
  }

  lemma OverlayStep(f: seq<Entry>, l: seq<Entry>, p: nat)
    requires p < |l|
    ensures p < |Overlaid(f, l, p)| || |f| <= p
    ensures Overlaid(f, l, p + 1)
            == if p < |f| then Overlaid(f, l, p)[p := l[p]] else Overlaid(f, l, p) + [l[p]]
  {
    assert l[..p + 1] == l[..p] + [l[p]];
  }

  /** A log laid over with what it already has. */
  lemma OverlaidSelf(f: seq<Entry>, l: seq<Entry>, q: nat)
    requires q <= |l| && l[..q] <= f
    ensures Overlaid(f, l, q) == f
  {
    assert f[..q] == l[..q];
  }

  lemma ApplyHead(log: seq<Entry>, base: int, w: Write, ws: seq<Write>)
    requires w.entry.index > base && (!w.append ==> 0 <= w.slot < |log|)
    ensures Apply(AsWritten, log, base, [w] + ws)
            == Apply(AsWritten, if w.append then log + [w.entry] else log[w.slot := w.entry], base, ws)
  {
    assert ([w] + ws)[1..] == ws;
  }

  /** A node whose log matches the leader's log l, shares its first q entries, and is to write those behind them. */
  ghost predicate Writing(n: Node, l: seq<Entry>, q: int, ws: seq<Write>) {
    && IndexOk(n) && |n.snapData| == n.snapIndex && n.snapData <= l && Numbered(l, 0)
    && 0 <= q && q + |ws| <= |l| && (forall k :: 0 <= k < |ws| ==> ws[k].entry == l[q + k])
  }

  lemma WritingRest(n: Node, l: seq<Entry>, q: int, ws: seq<Write>)
    requires Writing(n, l, q, ws) && ws != []
    ensures Writing(n, l, q + 1, ws[1..]) && ws[0].entry == l[q] && l[q].index == q + 1
  {
    forall k | 0 <= k < |ws[1..]| ensures ws[1..][k].entry == l[q + 1 + k] {
      assert ws[1..][k] == ws[k + 1];
    }
  }

  /** One checked write replaces its slot, or appends, or lies in the snapshot. */
  lemma WriteOverlays(n: Node, l: seq<Entry>, q: int, ws: seq<Write>, log: seq<Entry>)
    requires Writing(n, l, q, ws) && ws != [] && n.snapData + log == Overlaid(Full(n), l, q)
    requires Check(n, ws, |n.snapData + log|).Fits?
    ensures var w := ws[0];
      var log' := if w.entry.index <= n.snapIndex then log
                  else if w.append then log + [w.entry]
                  else if 0 <= w.slot < |log| then log[w.slot := w.entry] else log;
      && n.snapData + log' == Overlaid(Full(n), l, q + 1)
      && Apply(AsWritten, log, n.snapIndex, ws) == Apply(AsWritten, log', n.snapIndex, ws[1..])
      && Check(n, ws[1..], |n.snapData + log'|).Fits?
  {
    var w, f := ws[0], Full(n);
    WritingRest(n, l, q, ws);
    OverlayStep(f, l, q);
    assert LastIndex(n) == |f|;
    if w.entry.index <= n.snapIndex {
      assert f[q] == n.snapData[q] == l[q];
      assert Overlaid(f, l, q)[q := l[q]] == Overlaid(f, l, q);
    } else if w.append {
      assert q == |Overlaid(f, l, q)|;
      assert n.snapData + (log + [w.entry]) == (n.snapData + log) + [w.entry];
    } else {
      assert w.slot == q - n.snapIndex;
      assert n.snapData + log[w.slot := w.entry] == (n.snapData + log)[q := w.entry];
    }
  }

  /** As written, checked writes lay the leader's entries over the log as it is when they are made. */
  lemma {:induction false} WritesOverlay(n: Node, l: seq<Entry>, q: int, ws: seq<Write>, log: seq<Entry>)
    requires Writing(n, l, q, ws) && n.snapData + log == Overlaid(Full(n), l, q)
    requires Check(n, ws, |n.snapData + log|).Fits?
    ensures n.snapData + Apply(AsWritten, log, n.snapIndex, ws) == Overlaid(Full(n), l, q + |ws|)
    decreases ws
  {
    if ws != [] {
      var w := ws[0];
      var log' := if w.entry.index <= n.snapIndex then log
                  else if w.append then log + [w.entry]
                  else if 0 <= w.slot < |log| then log[w.slot := w.entry] else log;
      WriteOverlays(n, l, q, ws, log);
      WritingRest(n, l, q, ws);
      WritesOverlay(n, l, q + 1, ws[1..], log');
    }
  }

  /** A log agrees with the one it replaced if log matching holds between them. */
  ghost predicate KeepsMatching(n: Node, log: seq<Entry>) {
    Matching(n.snapData + log, Full(n))
  }

  /** Where two logs differ at q and share a later entry, log matching is broken. */
  lemma SharedBehind(g: seq<Entry>, f: seq<Entry>, q: nat, k: nat)
    requires q < k < |g| && k < |f| && g[q].term != f[q].term && g[k] == f[k]
    ensures !Matching(g, f)
  {
    assert g[..k + 1][q] == g[q] && f[..k + 1][q] == f[q];
  }

  /** Matching logs that agree on a term are shared up to it. */
  lemma SharedUpTo(f: seq<Entry>, l: seq<Entry>, end: nat)
    requires Matching(f, l) && end <= |l| && end <= |f|
    requires end == 0 || f[end - 1].term == l[end - 1].term
    ensures l[..end] <= f
  {
    assert end > 0 ==> f[..end - 1 + 1] == l[..end - 1 + 1];
  }

  /** An overlay matches the old log exactly if that has all of it already, or is covered to its end. */
  lemma OverlaidMatches(f: seq<Entry>, l: seq<Entry>, end: nat)
    requires end <= |l| && Matching(f, l)
    ensures Matching(Overlaid(f, l, end), f) <==> l[..end] <= f || |f| <= end
  {
    var g := Overlaid(f, l, end);
    if |f| <= end {
      assert g == l[..end];
      PrefixMatches(l, f, end);
    } else if l[..end] <= f {
      OverlaidSelf(f, l, end);
      MatchesItself(f);
    } else {
      if end == 0 || f[end - 1].term == l[end - 1].term {
        SharedUpTo(f, l, end);
        assert false;
      }
      hide Matching;
      assert g[end - 1] == l[end - 1] && g[end] == f[end];
      SharedBehind(g, f, end - 1, end);
    }
  }

  lemma MatchesItself(f: seq<Entry>)
    ensures Matching(f, f)
  {}

  lemma PrefixMatches(l: seq<Entry>, f: seq<Entry>, end: nat)
    requires end <= |l| && Matching(f, l)
    ensures Matching(l[..end], f)
  {
    forall k | 0 <= k < end && k < |f| && l[k].term == f[k].term ensures l[..end][..k + 1] == f[..k + 1] {
      assert l[..end][..k + 1] == l[..k + 1];
    }
  }

  /** Truncation takes nothing away from a log that has all the entries already. */
  lemma {:induction false} NothingPlaced(d: seq<Entry>, log: seq<Entry>, l: seq<Entry>, q: int, ws: seq<Write>)
    requires Numbered(l, 0) && 0 <= q && q + |ws| <= |l| && l[..q + |ws|] <= d + log
    requires forall k :: 0 <= k < |ws| ==> ws[k].entry == l[q + k]
    ensures Apply(Intended, log, |d|, ws) == log
    decreases ws
  {
    if ws != [] {
      assert l[..q + |ws|][q] == (d + log)[q];
      forall k | 0 <= k < |ws[1..]| ensures ws[1..][k].entry == l[q + 1 + k] {
        assert ws[1..][k] == ws[k + 1];
      }
      NothingPlaced(d, log, l, q + 1, ws[1..]);
    }
  }

  /** What truncation makes of the log: itself if it has all the entries, and else exactly these. */
  lemma PlacedExactly(n: Node, l: seq<Entry>, q: int, ws: seq<Write>)
    requires Writing(n, l, q, ws) && Matching(Full(n), l) && l[..q] <= Full(n)
    ensures n.snapData + Apply(Intended, n.log, n.snapIndex, ws)
            == if l[..q + |ws|] <= Full(n) then Full(n) else l[..q + |ws|]
  {
    ApplyMerges(n.snapData, n.log, l, q, ws);
    if l[..q + |ws|] <= Full(n) {
      NothingPlaced(n.snapData, n.log, l, q, ws);
    }
  }

  /**
    Writes that were decided before the gap and still fit behind it, whatever the log has become in
    between: the one-slot overwrite keeps log matching exactly when the log has all that the request brings
    already, or ends at or before it, and exactly then it does what truncation does. Truncation always
    keeps log matching.
   */
  lemma OverwriteExact(n: Node, l: seq<Entry>, q: int, ws: seq<Write>)
    requires Writing(n, l, q, ws) && Matching(Full(n), l) && l[..q] <= Full(n) && Check(n, ws, LastIndex(n)).Fits?
    ensures var written, intended := Apply(AsWritten, n.log, n.snapIndex, ws), Apply(Intended, n.log, n.snapIndex, ws);
      && (KeepsMatching(n, written) <==> l[..q + |ws|] <= Full(n) || LastIndex(n) <= q + |ws|)
      && (written == intended <==> l[..q + |ws|] <= Full(n) || LastIndex(n) <= q + |ws|)
      && KeepsMatching(n, intended)
  {
    hide *;
    OverwriteResults(n, l, q, ws);
    var written, intended := Apply(AsWritten, n.log, n.snapIndex, ws), Apply(Intended, n.log, n.snapIndex, ws);
    KeepsMeans(n, written);
    KeepsMeans(n, intended);
    Compared(n.snapData, n.log, written, intended, l, q + |ws|);
  }

  lemma KeepsMeans(n: Node, log: seq<Entry>)
    ensures Full(n) == n.snapData + n.log
    ensures KeepsMatching(n, log) <==> Matching(n.snapData + log, n.snapData + n.log)
  {}

  /** What the two rules make of the log, with what the snapshot covers. */
  lemma OverwriteResults(n: Node, l: seq<Entry>, q: int, ws: seq<Write>)
    requires Writing(n, l, q, ws) && Matching(Full(n), l) && l[..q] <= Full(n) && Check(n, ws, LastIndex(n)).Fits?
    ensures LastIndex(n) == |Full(n)| && 0 <= q + |ws| <= |l|
    ensures n.snapData + Apply(AsWritten, n.log, n.snapIndex, ws) == Overlaid(Full(n), l, q + |ws|)
    ensures n.snapData + Apply(Intended, n.log, n.snapIndex, ws)
            == if l[..q + |ws|] <= Full(n) then Full(n) else l[..q + |ws|]
  {
    hide Apply, Check;
    assert LastIndex(n) == |Full(n)|;
    OverlaidSelf(Full(n), l, q);
    WritesOverlay(n, l, q, ws, n.log);
    PlacedExactly(n, l, q, ws);
  }

  /** The two results, without and with what the snapshot covers. */
  lemma Compared(d: seq<Entry>, log: seq<Entry>, written: seq<Entry>, intended: seq<Entry>, l: seq<Entry>, end: nat)
    requires end <= |l| && Matching(d + log, l) && d + written == Overlaid(d + log, l, end)
    requires d + intended == if l[..end] <= d + log then d + log else l[..end]
    ensures Matching(d + written, d + log) <==> l[..end] <= d + log || |d + log| <= end
    ensures written == intended <==> l[..end] <= d + log || |d + log| <= end
    ensures Matching(d + intended, d + log)
  {
    hide Overlaid, Matching;
    OverlaidMatches(d + log, l, end);
    OverlaidOrPlaced(d + log, l, end);
    SameBehind(d, written, intended);
  }

  /** An overlay compared with what truncation makes of the same log. */
  lemma OverlaidOrPlaced(f: seq<Entry>, l: seq<Entry>, end: nat)
    requires end <= |l| && Matching(f, l)
    ensures var placed := if l[..end] <= f then f else l[..end];
      && Matching(placed, f)
      && (Overlaid(f, l, end) == placed <==> l[..end] <= f || |f| <= end)
  {
    MatchesItself(f);
    PrefixMatches(l, f, end);
    if l[..end] <= f {
      OverlaidSelf(f, l, end);
    } else {
      assert Overlaid(f, l, end)[..end] == l[..end];
    }
  }

  lemma SameBehind(d: seq<Entry>, f: seq<Entry>, g: seq<Entry>)
    ensures d + f == d + g <==> f == g
  {
    if d + f == d + g {
      assert f == (d + f)[|d|..] == (d + g)[|d|..] == g;
    }
  }

  // ------------------------------------------------------------------ installed snapshots

  /**
    A snapshot of the leader's log l, newer than the node's own, keeps log matching exactly when the log
    ends at or before it or agrees with its last entry; dropping the tail otherwise always keeps it.
   */
  lemma InstallExact(n: Node, l: seq<Entry>, s: SnapshotArgs)
    requires IndexOk(n) && |n.snapData| == n.snapIndex && 0 <= n.snapIndex < s.lastIndex <= |l|
    requires s.data == l[..s.lastIndex] && s.lastTerm == l[s.lastIndex - 1].term
    requires Matching(Full(n), l) && s.term >= n.term
    ensures Matching(Full(InstallSnapshot(AsWritten, n, s)), Full(n))
            <==> LastIndex(n) <= s.lastIndex || TermAt(n, s.lastIndex) == s.lastTerm
    ensures Matching(Full(InstallSnapshot(Intended, n, s)), Full(n))
  {
    var f, i := Full(n), s.lastIndex;
    InstalledLogs(n, l, s);
    hide InstallSnapshot, Matching;
    PrefixMatches(l, f, i);
    if |f| > i {
      TailMatches(f, l, i);
    }
  }

  /** The logs after installing, as written and repaired. */
  lemma InstalledLogs(n: Node, l: seq<Entry>, s: SnapshotArgs)
    requires IndexOk(n) && |n.snapData| == n.snapIndex && 0 <= n.snapIndex < s.lastIndex <= |l|
    requires s.data == l[..s.lastIndex] && s.term >= n.term
    ensures var f, i := Full(n), s.lastIndex;
      && LastIndex(n) == |f| && (|f| > i ==> Holds(n, i) && TermAt(n, i) == f[i - 1].term)
      && Full(InstallSnapshot(AsWritten, n, s)) == (if |f| > i then l[..i] + f[i..] else l[..i])
      && Full(InstallSnapshot(Intended, n, s))
         == (if |f| > i && f[i - 1].term == s.lastTerm then l[..i] + f[i..] else l[..i])
  {
    var f, i := Full(n), s.lastIndex;
    assert l[..i] + [] == l[..i];
    if |f| > i {
      assert f[i - 1] == n.log[i - n.snapIndex - 1];
      assert f[i..] == n.log[i - n.snapIndex..];
    }
  }

  /** A log's tail behind another prefix matches the log exactly if the two agree where they meet. */
  lemma TailMatches(f: seq<Entry>, l: seq<Entry>, i: nat)
    requires 0 < i <= |l| && i < |f| && Matching(f, l)
    ensures Matching(l[..i] + f[i..], f) <==> f[i - 1].term == l[i - 1].term
  {
    var g := l[..i] + f[i..];
    if f[i - 1].term == l[i - 1].term {
      assert f[..i] == l[..i];
      assert g == f;
    } else {
      hide Matching;
      assert g[i - 1] == l[i - 1] && g[i] == f[i];
      SharedBehind(g, f, i - 1, i);
    }
  }

  /**
    A follower whose second entry stood on an entry of term 1 is given a snapshot with an entry of term 2 in
    that place: as written it keeps the second entry, now behind another one than before.
   */
  lemma InstallKeepsStaleTail(x: string, y: string, z: string)
    ensures var n := LeaderWith([x, y], 2, 1).(role := Follower);
      var s := SnapshotArgs(2, 1, 1, 2, [Entry(z, 2, 1)]);
      && Full(InstallSnapshot(AsWritten, n, s)) == [Entry(z, 2, 1), Entry(y, 1, 2)]
      && Full(InstallSnapshot(Intended, n, s)) == [Entry(z, 2, 1)]
      && !Matching(Full(InstallSnapshot(AsWritten, n, s)), Full(n))
  {
    var n := LeaderWith([x, y], 2, 1).(role := Follower);
    var s := SnapshotArgs(2, 1, 1, 2, [Entry(z, 2, 1)]);
    var f, g := [Entry(x, 1, 1), Entry(y, 1, 2)], [Entry(z, 2, 1), Entry(y, 1, 2)];
    assert n.log == f && Full(n) == f && n.log[1..] == [Entry(y, 1, 2)];
    assert Full(InstallSnapshot(AsWritten, n, s)) == g;
    SharedBehind(g, f, 0, 1);
  }
}
