/**
  A failed log write takes the end of a server's log back. It keeps ClusterInv exactly if nothing else has
  the first entry taken back: no other log, no request, no acknowledgement. Entries above the stable index
  are never had by anything else.
 */
module ReplicationFailures {
  import opened RaftTypes
  import opened RaftNode
  import opened Protocol
  import opened Cluster
  import opened UnsentEntries
  import opened ReplicationInv
  import opened ReplicationSteps
  import P = ProtocolSteps
  import F = ProtocolFailures
  import E = ElectionSafety
  import R = RaftIndices

  /** The callback takes the entries from this index on away. */
  predicate Takes(n: Node, index: int) {
    n.commit < index <= LastIndex(n)
  }

  /** No request reaches entry e at position p of its leader's log. */
  ghost predicate Unrequested(c: Cluster, p: int, e: Entry) {
    forall m <- c.net :: IsRequest(m) && m.append.term in c.h.reigns && Has(c.h.reigns[m.append.term].log, p, e) ==>
      Reach(m.append) <= p
  }

  /** Nothing has what server i has at position p: no other log, no request, no acknowledgement. */
  ghost predicate Recallable(c: Cluster, i: nat, p: int) {
    && i < |c.nodes| && 0 <= p < |Full(c.nodes[i])|
    && F.Unshared(View(c), i, p) && Unrequested(c, p, Full(c.nodes[i])[p])
  }

  /** Node i is about to give up its log from position p on, where e stands. */
  ghost predicate Dropping(c: Cluster, i: nat, p: nat, e: Entry) {
    && ClusterInv(c) && i < |c.nodes| && ShapedNode(c, i)
    && Has(Full(c.nodes[i]), p, e) && c.nodes[i].commit <= p && Recallable(c, i, p)
  }

  lemma FailedShape(n: Node, index: int)
    requires NodeOk(n) && Backed(n)
    ensures !Takes(n, index) ==> LogFailed(n, index) == n
    ensures var m := LogFailed(n, index);
      Takes(n, index) ==>
      && m != n && m == n.(log := m.log) && NodeOk(m) && Backed(m)
      && |Full(m)| == index - 1 < |Full(n)| && Full(m) == Full(n)[..index - 1]
      && n.commit <= index - 1
  {}

  lemma NobodyHasIt(c: Cluster, i: nat, p: nat)
    requires ClusterInv(c) && i < |c.nodes| && Unsent(c, i, p)
    ensures F.Unshared(View(c), i, p)
  {
    hide LogInv, E.ElectionInv, MembersOk, MessagesOk;
    var e := Full(c.nodes[i])[p];
    forall j | 0 <= j < |c.nodes| && j != i ensures !Has(Full(c.nodes[j]), p, e) {
      assert FreeBut(c, j, Full(c.nodes[j]));
    }
    forall a <- c.h.acks | a.term in c.h.reigns && Has(c.h.reigns[a.term].log, p, e) ensures a.len <= p {
      AckWithin(c, a);
      assert SentOk(c, a.term, a.len);
    }
  }

  lemma AckWithin(c: Cluster, a: Ack)
    requires LogInv(View(c)) && a in c.h.acks
    ensures a.term in c.h.reigns && a.len <= |c.h.reigns[a.term].log|
  {
    assert AckOk(View(c), a);
  }

  /** Entries above the stable index can always be taken back. */
  lemma UnsentRecallable(c: Cluster, i: nat, p: int)
    requires ClusterInv(c) && i < |c.nodes| && Unsent(c, i, p)
    ensures Recallable(c, i, p)
  {
    hide LogInv, E.ElectionInv, MembersOk;
    NobodyHasIt(c, i, p);
    forall m <- c.net | IsRequest(m) && m.append.term in c.h.reigns
        && Has(c.h.reigns[m.append.term].log, p, Full(c.nodes[i])[p])
      ensures Reach(m.append) <= p
    {
      assert MessageOk(c, m);
      assert SentOk(c, m.append.term, Reach(m.append));
    }
  }

  lemma DroppedReach(c: Cluster, i: nat, p: nat, e: Entry, m: Message)
    requires Dropping(c, i, p, e) && m in c.net && IsRequest(m)
    ensures RequestOk(c.h, m.append)
    ensures Has(c.h.reigns[m.append.term].log, p, e) ==> Reach(m.append) <= p
  {
    hide LogInv, E.ElectionInv, MembersOk, UnsentOk;
    assert MessageOk(c, m);
  }

  // ------------------------------------------------------------------ messages

  /** What the drop leaves of the cluster. */
  ghost predicate Dropped(c: Cluster, i: nat, p: nat, e: Entry, d: Cluster) {
    && Dropping(c, i, p, e)
    && |d.nodes| == |c.nodes| && (forall j :: 0 <= j < |c.nodes| && j != i ==> d.nodes[j] == c.nodes[j])
    && d.nodes[i] == c.nodes[i].(log := d.nodes[i].log) && Full(d.nodes[i]) == Full(c.nodes[i])[..p]
    && d.net == c.net && d.h == c.h.(reigns := Forget(c.h.reigns, p, e))
    && Remembers(c.h, d.h)
  }

  lemma RequestDropped(c: Cluster, i: nat, p: nat, e: Entry, d: Cluster, m: Message)
    requires Dropped(c, i, p, e, d) && m in c.net && IsRequest(m)
    ensures RequestOk(d.h, m.append)
    ensures Reach(m.append) <= |d.h.reigns[m.append.term].log|
    ensures forall k :: 0 <= k <= Reach(m.append) ==>
              d.h.reigns[m.append.term].log[..k] == c.h.reigns[m.append.term].log[..k]
  {
    hide ClusterInv, Settled, Remembers;
    DroppedReach(c, i, p, e, m);
    var a := m.append;
    var l, l' := c.h.reigns[a.term].log, d.h.reigns[a.term].log;
    assert l'[..a.leaderCommit] == l[..a.leaderCommit];
    RememberedSettled(c.h, d.h, l[..a.leaderCommit], a.term);
    assert l'[a.prevIndex..Reach(a)] == l[a.prevIndex..Reach(a)];
  }

  lemma RememberedSettled(h: History, h': History, f: seq<Entry>, hi: int)
    requires Remembers(h, h') && Settled(h, f, hi)
    ensures Settled(h', f, hi)
  {}

  lemma GapDropped(c: Cluster, i: nat, p: nat, e: Entry, d: Cluster, j: nat, a: AppendArgs, ws: seq<Write>)
    requires Dropped(c, i, p, e, d) && Gap(j, a, ws) in c.net
    ensures MessageOk(d, Gap(j, a, ws))
  {
    hide ClusterInv, Remembers;
    OldMessage(c, i, p, e, Gap(j, a, ws));
    RequestDropped(c, i, p, e, d, Gap(j, a, ws));
    DroppedReach(c, i, p, e, Gap(j, a, ws));
    var q := Reach(a) - |ws|;
    if j == i && a.term == c.nodes[i].term {
      CommonKept(Full(c.nodes[i]), c.h.reigns[a.term].log, p, e, q);
    }
  }

  lemma OldMessage(c: Cluster, i: nat, p: nat, e: Entry, m: Message)
    requires Dropping(c, i, p, e) && m in c.net
    ensures MessageOk(c, m) && E.VoteMessageOk(c, m)
  {}

  /** What the log shared with a leader that lacks the entry lies in front of it. */
  lemma CommonKept(f: seq<Entry>, l: seq<Entry>, p: nat, e: Entry, q: int)
    requires 0 <= q <= |l| && l[..q] <= f && Has(f, p, e) && (Has(l, p, e) ==> q <= p)
    ensures l[..q] <= f[..p]
  {
    assert l[..q] == f[..q];
  }

  /** A candidate's claim outlives the entries it was made with. */
  lemma ClaimDropped(c: Cluster, i: nat, p: nat, e: Entry, d: Cluster, v: VoteArgs)
    requires Dropped(c, i, p, e, d) && AskVote(v) in c.net
    ensures MessageOk(d, AskVote(v))
  {
    hide ClusterInv, Remembers;
    OldMessage(c, i, p, e, AskVote(v));
    if v.candidate < |d.nodes| && Standing(View(d), v.candidate, v.term) {
      assert Standing(View(c), v.candidate, v.term);
      var f := Full(c.nodes[v.candidate]);
      if v.candidate == i {
        OwnClaim(c, i, p, e, v);
        CutPrefix(c.h.reigns, v.lastTerm, p, e, f);
      } else if v.lastTerm in c.h.reigns {
        assert d.h.reigns[v.lastTerm].log <= c.h.reigns[v.lastTerm].log;
      }
    }
  }

  /** Nobody leads the term that the candidate's log ended with, as far as it ends in what it gives up. */
  lemma OwnClaim(c: Cluster, i: nat, p: nat, e: Entry, v: VoteArgs)
    requires Dropping(c, i, p, e) && Standing(View(c), i, v.term) && ClaimOk(c, v, Full(c.nodes[i]))
    ensures v.lastTerm in c.h.reigns && !Leading(c, v.lastTerm) && v.lastTerm < v.term
    ensures c.h.reigns[v.lastTerm].log <= Full(c.nodes[i]) || Full(c.nodes[i]) <= c.h.reigns[v.lastTerm].log
  {
    var f := Full(c.nodes[i]);
    InvOfView(c);
    assert LogOk(c.h.reigns, View(c).nodes[i]);
    if v.lastTerm == P.EndTerm(f) {
      assert RootedAt(c.h.reigns, f, |f| - 1);
      assert f[..|f|] == f;
      assert f <= c.h.reigns[v.lastTerm].log;
      assert Has(c.h.reigns[v.lastTerm].log, p, e);
      NotLed(c, i, p, e, v.lastTerm);
    }
  }

  /** A leader's log is its term's record, and only node i has the entry. */
  lemma NotLed(c: Cluster, i: nat, p: nat, e: Entry, t: int)
    requires Dropping(c, i, p, e) && c.nodes[i].role != Leader && t in c.h.reigns && Has(c.h.reigns[t].log, p, e)
    ensures !Leading(c, t)
  {
    hide ClusterInv;
    LedRecord(c, t);
  }

  lemma LedRecord(c: Cluster, t: int)
    requires ClusterInv(c) && t in c.h.reigns
    ensures Leading(c, t) ==> View(c).nodes[c.h.reigns[t].node].log == c.h.reigns[t].log
  {
    if Leading(c, t) {
      LeaderTerm(c, c.h.reigns[t].node);
    }
  }

  lemma CutPrefix(r: Reigns, t: int, p: nat, e: Entry, f: seq<Entry>)
    requires t in r && Has(f, p, e) && (r[t].log <= f || f <= r[t].log)
    ensures Forget(r, p, e)[t].log <= f[..p]
  {
    var l := r[t].log;
    if Has(l, p, e) {
      assert l[..p] == f[..p];
    } else {
      assert |l| <= p;
    }
  }

  lemma SnapshotDropped(c: Cluster, i: nat, p: nat, e: Entry, d: Cluster, s: SnapshotArgs)
    requires Dropped(c, i, p, e, d) && SnapshotOk(c, s)
    ensures SnapshotOk(d, s)
  {
    hide ClusterInv, Dropping, Remembers, Settled;
    RememberedSettled(c.h, d.h, s.data, s.term);
  }

  lemma MessageDropped(c: Cluster, i: nat, p: nat, e: Entry, d: Cluster, m: Message)
    requires Dropped(c, i, p, e, d) && m in c.net
    ensures MessageOk(d, m)
  {
    hide ClusterInv, Dropping, Dropped, RequestOk, SnapshotOk, GapOk, ClaimOk;
    assert Dropping(c, i, p, e) && d.h.acks == c.h.acks by { DroppedParts(c, i, p, e, d); }
    OldMessage(c, i, p, e, m);
    match m
    case AskVote(v) => ClaimDropped(c, i, p, e, d, v);
    case VoteAnswer(_, _, _) =>
    case AskAppend(_, a) => RequestDropped(c, i, p, e, d, m);
    case Gap(j, a, ws) => GapDropped(c, i, p, e, d, j, a, ws);
    case AppendAnswer(from, a, r) =>
      if r.success { AckedStays(c.h, d.h, a.term, from, Reach(a)); }
    case AskInstall(s) => SnapshotDropped(c, i, p, e, d, s);
    case InstallAnswer(_, s, _) => SnapshotDropped(c, i, p, e, d, s);
  }

  lemma DroppedParts(c: Cluster, i: nat, p: nat, e: Entry, d: Cluster)
    requires Dropped(c, i, p, e, d)
    ensures Dropping(c, i, p, e) && d.h.acks == c.h.acks && |d.nodes| == |c.nodes|
  {}

  // ------------------------------------------------------------------ nodes

  lemma MemberDropped(c: Cluster, i: nat, p: nat, e: Entry, d: Cluster, j: nat)
    requires Dropped(c, i, p, e, d) && j < |c.nodes| && NodeOk(d.nodes[i])
    ensures MemberOk(d, j)
  {
    hide LogInv, E.ElectionInv, Remembers, UnsentOk, MessagesOk, F.Unshared;
    Member(c, j);
    var n := c.nodes[j];
    if n.role == Leader {
      LeaderTerm(c, j);
      forall v: nat | v < |n.matched| && v != j ensures Known(d.h, d.nodes[j], v) {
        assert Known(c.h, n, v);
      }
    }
  }

  lemma NumberedDropped(c: Cluster, i: nat, p: nat, e: Entry, d: Cluster)
    requires Dropped(c, i, p, e, d)
    ensures ReignsNumbered(d.h.reigns)
  {
    forall t <- d.h.reigns ensures Numbered(d.h.reigns[t].log, 0) {
      assert Numbered(c.h.reigns[t].log, 0);
    }
  }

  // ------------------------------------------------------------------ the step

  /** What is about to be given up. */
  lemma FailedDropping(c: Cluster, i: nat, index: int)
    requires ClusterInv(c) && i < |c.nodes| && ShapedNode(c, i)
    requires Takes(c.nodes[i], index) && Recallable(c, i, index - 1)
    ensures 0 < index <= |Full(c.nodes[i])| && Dropping(c, i, index - 1, Full(c.nodes[i])[index - 1])
    ensures var n, m := c.nodes[i], LogFailed(c.nodes[i], index);
      && m == n.(log := m.log) && NodeOk(m) && Full(m) == Full(n)[..index - 1]
      && DoFailed(c, i, index)
         == With(c, i, m, {}, c.h.(reigns := Forget(c.h.reigns, index - 1, Full(n)[index - 1])))
    ensures DroppingParts(c, i, index - 1, Full(c.nodes[i])[index - 1])
    ensures NodeOk(DoFailed(c, i, index).nodes[i])
  {
    hide LogInv, E.ElectionInv, UnsentOk, MessagesOk, Forget;
    Member(c, i);
    FailedShape(c.nodes[i], index);
  }

  lemma FailedRefines(c: Cluster, i: nat, index: int)
    requires ClusterInv(c) && i < |c.nodes| && ShapedNode(c, i)
    requires Takes(c.nodes[i], index) && Recallable(c, i, index - 1)
    ensures 0 < index <= |Full(c.nodes[i])|
    ensures View(DoFailed(c, i, index)) == P.GiveUp(View(c), i, index - 1)
    ensures Dropped(c, i, index - 1, Full(c.nodes[i])[index - 1], DoFailed(c, i, index))
    ensures LogInv(View(DoFailed(c, i, index)))
    ensures NodeOk(DoFailed(c, i, index).nodes[i])
  {
    hide *;
    ShapedIndex(c, i);
    FailedDropping(c, i, index);
    var n, p := c.nodes[i], index - 1;
    var m, e, d := LogFailed(n, index), Full(n)[p], DoFailed(c, i, index);
    GiveUpView(c, i, m, p);
    GiveUpKeeps(c, i, p, e);
    NowDropped(c, i, p, e, m);
    InvLogs(View(d));
  }

  lemma ShapedIndex(c: Cluster, i: nat)
    requires i < |c.nodes| && ShapedNode(c, i)
    ensures IndexOk(c.nodes[i])
  {}

  ghost predicate DroppingParts(c: Cluster, i: nat, p: nat, e: Entry) {
    ClusterInv(c) && i < |c.nodes| && Has(Full(c.nodes[i]), p, e) && c.nodes[i].commit <= p && F.Unshared(View(c), i, p)
  }

  lemma InvLogs(s: State)
    requires Inv(s)
    ensures LogInv(s)
  {}

  lemma GiveUpView(c: Cluster, i: nat, m: Node, p: nat)
    requires i < |c.nodes| && p < |Full(c.nodes[i])| && m == c.nodes[i].(log := m.log)
    requires Full(m) == Full(c.nodes[i])[..p]
    ensures var h := c.h.(reigns := Forget(c.h.reigns, p, Full(c.nodes[i])[p]));
      View(With(c, i, m, {}, h)) == P.GiveUp(View(c), i, p)
  {
    hide Forget;
    ViewWith(c, i, m, {}, c.h.(reigns := Forget(c.h.reigns, p, Full(c.nodes[i])[p])));
  }

  lemma GiveUpKeeps(c: Cluster, i: nat, p: nat, e: Entry)
    requires DroppingParts(c, i, p, e)
    ensures Inv(P.GiveUp(View(c), i, p))
    ensures Remembers(c.h, c.h.(reigns := Forget(c.h.reigns, p, e)))
  {
    hide ClusterInv, Inv, Remembers, Forget, F.Unshared;
    InvOfView(c);
    F.GiveUpLogs(View(c), i, p);
  }

  lemma NowDropped(c: Cluster, i: nat, p: nat, e: Entry, m: Node)
    requires Dropping(c, i, p, e) && m == c.nodes[i].(log := m.log) && Full(m) == Full(c.nodes[i])[..p]
    requires Remembers(c.h, c.h.(reigns := Forget(c.h.reigns, p, e)))
    ensures Dropped(c, i, p, e, With(c, i, m, {}, c.h.(reigns := Forget(c.h.reigns, p, e))))
  {
    hide Dropping, Remembers, Forget;
    assert i < |c.nodes| by { DroppingIndex(c, i, p, e); }
  }

  lemma DroppingIndex(c: Cluster, i: nat, p: nat, e: Entry)
    requires Dropping(c, i, p, e)
    ensures i < |c.nodes|
  {}

  /** Taking entries back keeps the invariant, and everything that was committed, if nothing else has the first. */
  lemma FailedStep(c: Cluster, i: nat, index: int)
    requires ClusterInv(c) && i < |c.nodes| && ShapedNode(c, i)
    requires Takes(c.nodes[i], index) ==> Recallable(c, i, index - 1)
    ensures ClusterInv(DoFailed(c, i, index))
    ensures Remembers(c.h, DoFailed(c, i, index).h)
  {
    hide LogInv, E.ElectionInv, UnsentOk, MessageOk, MemberOk, ReignsNumbered, Dropping, Recallable, Takes;
    var n := c.nodes[i];
    Member(c, i);
    MemberParts(c, i);
    FailedShape(n, index);
    if !Takes(n, index) {
      assert DoFailed(c, i, index) == c;
    } else {
      FailedRefines(c, i, index);
      var e, d := Full(n)[index - 1], DoFailed(c, i, index);
      E.FailedElection(c, i, index);
      forall j | 0 <= j < |d.nodes| ensures MemberOk(d, j) {
        MemberDropped(c, i, index - 1, e, d, j);
      }
      forall m <- d.net ensures MessageOk(d, m) {
        MessageDropped(c, i, index - 1, e, d, m);
      }
      NumberedDropped(c, i, index - 1, e, d);
      FailedUnsent(c, i, index);
    }
  }

  lemma MemberParts(c: Cluster, i: nat)
    requires i < |c.nodes| && MemberOk(c, i)
    ensures NodeOk(c.nodes[i]) && Backed(c.nodes[i])
  {}

  /** A log with the entry is not rooted in what is left of the records. */
  lemma Uprooted(r: Reigns, p: nat, e: Entry, f: seq<Entry>)
    requires Rooted(r, f) && Rooted(Forget(r, p, e), f)
    ensures !Has(f, p, e)
  {
    assert p < |f| ==> RootedAt(r, f, p) && RootedAt(Forget(r, p, e), f, p);
  }

  lemma RootedNode(c: Cluster, j: nat)
    requires ClusterInv(c) && j < |c.nodes|
    ensures Rooted(c.h.reigns, Full(c.nodes[j]))
  {
    assert LogOk(c.h.reigns, View(c).nodes[j]);
  }

  /** In d the record has forgotten entry e at position p, which only node i has given up. */
  ghost predicate Forgotten(c: Cluster, i: nat, p: nat, e: Entry, d: Cluster) {
    && d.h == c.h.(reigns := Forget(c.h.reigns, p, e)) && d.net == c.net
    && |d.nodes| == |c.nodes| && forall j :: 0 <= j < |c.nodes| && j != i ==> d.nodes[j] == c.nodes[j]
  }

  lemma FailedForgets(c: Cluster, i: nat, index: int)
    requires ClusterInv(c) && i < |c.nodes| && ShapedNode(c, i) && Takes(c.nodes[i], index)
    ensures 0 < index <= |Full(c.nodes[i])|
    ensures Forgotten(c, i, index - 1, Full(c.nodes[i])[index - 1], DoFailed(c, i, index))
  {
    hide LogInv, E.ElectionInv, UnsentOk, MessagesOk, Forget;
    Member(c, i);
    FailedShape(c.nodes[i], index);
  }

  lemma OtherLogs(c: Cluster, i: nat, p: nat, e: Entry, d: Cluster, j: nat)
    requires ClusterInv(c) && ClusterInv(d) && Forgotten(c, i, p, e, d) && j < |c.nodes| && j != i
    ensures !Has(Full(c.nodes[j]), p, e)
  {
    hide ClusterInv, Rooted, Forget;
    RootedNode(c, j);
    RootedNode(d, j);
    Uprooted(c.h.reigns, p, e, Full(c.nodes[j]));
  }

  lemma OtherAcks(c: Cluster, i: nat, p: nat, e: Entry, d: Cluster, a: Ack)
    requires ClusterInv(d) && Forgotten(c, i, p, e, d) && a in c.h.acks
    requires a.term in c.h.reigns && Has(c.h.reigns[a.term].log, p, e)
    ensures a.len <= p
  {
    hide LogInv, E.ElectionInv, UnsentOk, MembersOk, MessagesOk;
    AckWithin(d, a);
  }

  lemma OtherRequests(c: Cluster, i: nat, p: nat, e: Entry, d: Cluster, m: Message)
    requires ClusterInv(d) && Forgotten(c, i, p, e, d) && m in c.net && IsRequest(m)
    requires m.append.term in c.h.reigns && Has(c.h.reigns[m.append.term].log, p, e)
    ensures Reach(m.append) <= p
  {
    hide LogInv, E.ElectionInv, UnsentOk, MembersOk;
    assert MessageOk(d, m);
  }

  /** And only then: a log, a request or an acknowledgement that has the entry would not be borne out any more. */
  lemma FailedOnlyIf(c: Cluster, i: nat, index: int)
    requires ClusterInv(c) && i < |c.nodes| && ShapedNode(c, i) && Takes(c.nodes[i], index)
    requires ClusterInv(DoFailed(c, i, index))
    ensures Recallable(c, i, index - 1)
  {
    hide ClusterInv, DoFailed, Forgotten, ShapedNode, Takes, Has;
    FailedForgets(c, i, index);
    var p, d := index - 1, DoFailed(c, i, index);
    var e := Full(c.nodes[i])[p];
    forall j | 0 <= j < |c.nodes| && j != i ensures !Has(Full(c.nodes[j]), p, e) {
      OtherLogs(c, i, p, e, d, j);
    }
    forall a <- c.h.acks | a.term in c.h.reigns && Has(c.h.reigns[a.term].log, p, e) ensures a.len <= p {
      OtherAcks(c, i, p, e, d, a);
    }
    forall m <- c.net | IsRequest(m) && m.append.term in c.h.reigns && Has(c.h.reigns[m.append.term].log, p, e)
      ensures Reach(m.append) <= p
    {
      OtherRequests(c, i, p, e, d, m);
    }
  }

  /** A failed log write keeps the invariant exactly if it takes nothing back, or nothing that anything else has. */
  lemma FailedExact(c: Cluster, i: nat, index: int)
    requires ClusterInv(c) && i < |c.nodes| && ShapedNode(c, i)
    ensures ClusterInv(DoFailed(c, i, index)) <==> (Takes(c.nodes[i], index) ==> Recallable(c, i, index - 1))
  {
    hide ClusterInv, DoFailed, Recallable, Takes;
    if ClusterInv(DoFailed(c, i, index)) {
      if Takes(c.nodes[i], index) {
        FailedOnlyIf(c, i, index);
      }
    } else if Takes(c.nodes[i], index) ==> Recallable(c, i, index - 1) {
      FailedStep(c, i, index);
    }
  }

  lemma FailedUnsent(c: Cluster, i: nat, index: int)
    requires ClusterInv(c) && i < |c.nodes| && ShapedNode(c, i)
    requires Takes(c.nodes[i], index) && Recallable(c, i, index - 1)
    ensures UnsentOk(DoFailed(c, i, index))
  {
    hide LogInv, E.ElectionInv, UnsentOk, MessagesOk;
    var n := c.nodes[i];
    Member(c, i);
    FailedShape(n, index);
    GiveUpUnsent(c, i, LogFailed(n, index), DoFailed(c, i, index).h, index - 1, Full(n)[index - 1]);
  }
}
