/**
  What a Raft node hands to its state machine over time: applierTicker copies committed commands,
  InstallSnapshot and Snapshot move the applied index past what a snapshot covers.
 */
module ApplyFeed {
  import opened RaftTypes
  import opened RaftNode
  import opened RaftIndices

  /** A step of the node: a round of the applier, a snapshot installed or taken, or anything else. */
  datatype Move = Deliver | Receive(snapshot: SnapshotArgs) | Take(index: int) | Other(next: Node)

  /** Anything else leaves the applied index and the snapshot alone. */
  ghost predicate Admissible(n: Node, m: Move) {
    m.Other? ==> NodeOk(m.next) && m.next.applied == n.applied && m.next.snapIndex == n.snapIndex
  }

  ghost function Do(n: Node, m: Move): Node
    requires NodeOk(n)
  {
    match m
    case Deliver => ApplyCommitted(n).0
    case Receive(s) => InstallSnapshot(AsWritten, n, s)
    case Take(i) => TakeSnapshot(n, i)
    case Other(next) => next
  }

  lemma DoSteady(n: Node, m: Move)
    requires NodeOk(n) && Admissible(n, m)
    ensures var r := Do(n, m);
      && NodeOk(r) && n.applied <= r.applied && n.snapIndex <= r.snapIndex
      && (!m.Deliver? ==> r.applied == n.applied || r.applied <= r.snapIndex)
  {
    match m
    case Deliver => SnapshotSteady(n, n.id, SnapshotRequest(n), 0, 0);
    case Receive(s) => InstallSteady(n, s);
    case Take(i) => SnapshotSteady(n, n.id, SnapshotRequest(n), 0, i);
    case Other(_) =>
  }

  /** The indices of the commands in a round. */
  function Indices(msgs: seq<ApplyMsg>): (r: seq<int>)
    requires forall m <- msgs :: m.CommandMsg?
    ensures |r| == |msgs| && forall k :: 0 <= k < |r| ==> r[k] == msgs[k].index
  {
    if msgs == [] then [] else [msgs[0].index] + Indices(msgs[1..])
  }

  /** A round hands over exactly the indices from start to end, in order. */
  lemma {:induction false} CopiedIndices(n: Node, start: int, end: int)
    requires n.snapIndex < start && end <= n.snapIndex + |n.log| && start <= end + 1
    ensures var msgs := CopyLogs(n, start, end);
      && |msgs| == end + 1 - start
      && forall k :: 0 <= k < |msgs| ==> msgs[k].CommandMsg? && msgs[k].index == start + k
                                         && msgs[k].command == n.log[start + k - n.snapIndex - 1].command
    decreases end - start
  {
    if start <= end {
      CopiedIndices(n, start + 1, end);
    }
  }

  /**
    A round hands over all that is committed and has not been applied, one message for each index, in order
    and with its command, and nothing else of the server changes.
   */
  lemma RoundExact(n: Node)
    requires NodeOk(n)
    ensures var (m, msgs) := ApplyCommitted(n);
      && m == n.(applied := n.commit) && |msgs| == n.commit - n.applied
      && forall k :: 0 <= k < |msgs| ==>
           msgs[k] == CommandMsg(n.applied + 1 + k, n.log[n.applied + k - n.snapIndex].command)
  {
    if n.applied < n.commit {
      CopiedIndices(n, n.applied + 1, n.commit);
    }
  }

  /** The indices that one step hands over. */
  ghost function Handed(n: Node, m: Move): seq<int>
    requires NodeOk(n)
  {
    if m.Deliver? then
      RoundExact(n);
      var msgs := ApplyCommitted(n).1;
      assert forall x <- msgs :: x.CommandMsg?;
      Indices(msgs)
    else []
  }

  ghost predicate AllAdmissible(n: Node, ms: seq<Move>)
    requires NodeOk(n)
    decreases ms
  {
    ms != [] ==> Admissible(n, ms[0]) && (DoSteady(n, ms[0]); AllAdmissible(Do(n, ms[0]), ms[1..]))
  }

  ghost function After(n: Node, ms: seq<Move>): Node
    requires NodeOk(n) && AllAdmissible(n, ms)
    decreases ms
  {
    if ms == [] then n else DoSteady(n, ms[0]); After(Do(n, ms[0]), ms[1..])
  }

  /** All the command indices handed over, in order. */
  ghost function Feed(n: Node, ms: seq<Move>): seq<int>
    requires NodeOk(n) && AllAdmissible(n, ms)
    decreases ms
  {
    if ms == [] then [] else DoSteady(n, ms[0]); Handed(n, ms[0]) + Feed(Do(n, ms[0]), ms[1..])
  }

  /** A run of indices from a up to b that strictly rises and leaves out only what is at most c. */
  ghost predicate RisesTo(r: seq<int>, a: int, b: int, c: int) {
    && (forall k :: 0 <= k < |r| ==> a < r[k] <= b)
    && (forall j, k :: 0 <= j < k < |r| ==> r[j] < r[k])
    && (forall i :: a < i <= b && i > c ==> i in r)
  }

  lemma RisesJoin(r: seq<int>, q: seq<int>, a: int, b: int, d: int, c: int)
    requires a <= b <= d && RisesTo(r, a, b, c) && RisesTo(q, b, d, c)
    ensures RisesTo(r + q, a, d, c)
  {
    forall i | a < i <= d && i > c ensures i in r + q {
      assert if i <= b then i in r else i in q;
    }
  }

  lemma HandedRises(n: Node, m: Move, c: int)
    requires NodeOk(n) && Admissible(n, m) && Do(n, m).snapIndex <= c
    ensures Do(n, m).applied >= n.applied && RisesTo(Handed(n, m), n.applied, Do(n, m).applied, c)
  {
    DoSteady(n, m);
    var r := Handed(n, m);
    if m.Deliver? {
      RoundExact(n);
      hide ApplyCommitted;
      forall i | n.applied < i <= n.commit ensures i in r {
        assert r[i - n.applied - 1] == i;
      }
    }
  }

  /**
    Over any steps of a node the indices handed to the state machine strictly rise, and the only indices
    left out are covered by the snapshot that the node has at the end.
   */
  lemma {:induction false} FeedRises(n: Node, ms: seq<Move>)
    requires NodeOk(n) && AllAdmissible(n, ms)
    ensures var end := After(n, ms);
      NodeOk(end) && n.applied <= end.applied && n.snapIndex <= end.snapIndex
      && RisesTo(Feed(n, ms), n.applied, end.applied, end.snapIndex)
    decreases ms
  {
    if ms != [] {
      DoSteady(n, ms[0]);
      var n' := Do(n, ms[0]);
      FeedRises(n', ms[1..]);
      var end := After(n', ms[1..]);
      HandedRises(n, ms[0], end.snapIndex);
      RisesJoin(Handed(n, ms[0]), Feed(n', ms[1..]), n.applied, n'.applied, end.applied, end.snapIndex);
    }
  }

  lemma {:induction false} DeliverLast(n: Node, ms: seq<Move>)
    requires NodeOk(n) && AllAdmissible(n, ms)
    ensures AllAdmissible(n, ms + [Deliver]) && NodeOk(After(n, ms))
    ensures After(n, ms + [Deliver]) == Do(After(n, ms), Deliver)
    decreases ms
  {
    if ms == [] {
      DoSteady(n, Deliver);
      assert [] + [Deliver] == [Deliver] && [Deliver][1..] == [];
      assert AllAdmissible(Do(n, Deliver), []);
    } else {
      DoSteady(n, ms[0]);
      DeliverLast(Do(n, ms[0]), ms[1..]);
      assert (ms + [Deliver])[1..] == ms[1..] + [Deliver];
    }
  }

  /**
    After a round, however the server got there, every index committed before it has been handed to the state
    machine or is covered by the server's snapshot.
   */
  lemma DeliveredAll(n: Node, ms: seq<Move>, i: int)
    requires NodeOk(n) && AllAdmissible(n, ms) && n.applied < i <= After(n, ms).commit
    ensures AllAdmissible(n, ms + [Deliver])
    ensures i in Feed(n, ms + [Deliver]) || i <= After(n, ms + [Deliver]).snapIndex
  {
    DeliverLast(n, ms);
    FeedRises(n, ms + [Deliver]);
    RoundExact(After(n, ms));
  }
}
