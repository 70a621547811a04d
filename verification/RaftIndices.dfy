/**
  What single handlers guarantee for arbitrary messages: every mutator keeps the index invariant,
  commit and lastApplied never fall, the commit scan finds the greatest committable index, the
  back-off hint is the start of the conflicting run, and replies carry the request's own term.
 */
module RaftIndices {
  import opened RaftTypes
  import opened RaftNode

  /** The index invariant holds again, and neither commit nor lastApplied has fallen. */
  ghost predicate Steady(n: Node, n': Node) {
    NodeOk(n') && n.commit <= n'.commit && n.applied <= n'.applied && n.snapIndex <= n'.snapIndex
  }

  ghost predicate StableInLog(n: Node) {
    n.stable <= LastIndex(n)
  }

  // ------------------------------------------------------------------ the index invariant

  lemma ElectionSteady(n: Node, a: VoteArgs)
    requires NodeOk(n)
    ensures Steady(n, StartElection(n))
    ensures Steady(n, ReceiveVote(n, a).0)
  {}

  lemma AnswerVoteSteady(n: Node, peer: nat, a: VoteArgs, r: VoteReply)
    requires NodeOk(n)
    ensures Steady(n, AnswerVote(n, peer, a, r))
  {}

  lemma LeaderSteady(n: Node, p: nat, command: string, i: int)
    requires NodeOk(n) && p < n.size
    ensures Steady(n, Heartbeat(AsWritten, n, p).0)
    ensures Steady(n, StartCommand(n, command))
    ensures Steady(n, LogStable(n, i))
    ensures Steady(n, LogFailed(n, i))
  {}

  lemma {:induction false} CommitScanRange(n: Node, i: int)
    requires i <= n.snapIndex + |n.log| && n.snapIndex <= n.commit && n.size <= |n.matched|
    ensures n.commit <= CommitScan(n, i) <= Max(n.commit, i)
    decreases i - n.commit
  {
    if i > n.commit && !Committable(n, i) {
      CommitScanRange(n, i - 1);
    }
  }

  lemma HandleAppendSteady(n: Node, peer: nat, a: AppendArgs, r: AppendReply)
    requires NodeOk(n) && peer < n.size
    ensures Steady(n, HandleAppend(n, peer, a, r))
  {
    var m := Max(n.matched[peer], a.prevIndex + |a.entries|);
    var k := n.(matched := n.matched[peer := m], next := n.next[peer := m + 1]);
    CommitScanRange(k, Min(LastIndex(k), k.stable));
  }

  lemma ReceiveAppendSteady(n: Node, a: AppendArgs)
    requires NodeOk(n)
    ensures !ReceiveAppend(n, a).Exited? ==> Steady(n, ReceiveAppend(n, a).node)
  {}

  /** As written, an append-only or slot-wise update keeps the numbering once the writes were checked. */
  lemma {:induction false} CheckedApply(n: Node, ws: seq<Write>, log: seq<Entry>)
    requires IndexOk(n) && Numbered(log, n.snapIndex) && |n.log| <= |log|
    requires Check(n, ws, n.snapIndex + |log|).Fits?
    ensures Numbered(Apply(AsWritten, log, n.snapIndex, ws), n.snapIndex)
    ensures |log| <= |Apply(AsWritten, log, n.snapIndex, ws)|
    decreases ws
  {
    if ws != [] {
      var w := ws[0];
      if w.entry.index <= n.snapIndex {
        CheckedApply(n, ws[1..], log);
      } else if w.append {
        CheckedApply(n, ws[1..], log + [w.entry]);
      } else {
        CheckedApply(n, ws[1..], log[w.slot := w.entry]);
      }
    }
  }

  lemma ResumeAppendSteady(n: Node, a: AppendArgs, ws: seq<Write>, synced: bool)
    requires NodeOk(n)
    ensures Steady(n, ResumeAppend(AsWritten, n, a, ws, synced).0)
  {
    if Check(n, ws, LastIndex(n)).Fits? {
      CheckedApply(n, ws, n.log);
    }
  }

  lemma InstallSteady(n: Node, s: SnapshotArgs)
    requires NodeOk(n)
    ensures Steady(n, InstallSnapshot(AsWritten, n, s))
  {}

  lemma SnapshotSteady(n: Node, peer: nat, s: SnapshotArgs, t: int, index: int)
    requires NodeOk(n) && peer < n.size
    ensures Steady(n, HandleSnapshot(n, peer, s, t))
    ensures Steady(n, TakeSnapshot(n, index))
    ensures Steady(n, ApplyCommitted(n).0)
  {
    TakeSteady(n, index);
    hide TakeSnapshot;
  }

  lemma TakeSteady(n: Node, index: int)
    requires NodeOk(n)
    ensures Steady(n, TakeSnapshot(n, index))
  {}

  /** The steps of a follower keep the stable index within the log. */
  lemma StableKeptByResume(n: Node, a: AppendArgs, ws: seq<Write>, synced: bool)
    requires NodeOk(n) && StableInLog(n)
    ensures StableInLog(ResumeAppend(AsWritten, n, a, ws, synced).0)
  {
    if Check(n, ws, LastIndex(n)).Fits? {
      CheckedApply(n, ws, n.log);
    }
  }

  lemma StableKeptByInstall(n: Node, s: SnapshotArgs)
    requires NodeOk(n) && StableInLog(n)
    ensures StableInLog(InstallSnapshot(AsWritten, n, s))
  {
    InstallSteady(n, s);
  }

  // ------------------------------------------------------------------ a leader's own writes

  /** What happens to a leader's log between requests: new commands, and the answers of the log writer. */
  datatype Event = Started(command: string) | Succeeded(index: int) | Failed(index: int) | Snapped(index: int)

  function React(n: Node, e: Event): (m: Node)
    requires NodeOk(n)
    ensures NodeOk(m) && m.role == n.role && m.commit == n.commit
  {
    match e
    case Started(command) => StartCommand(n, command)
    case Succeeded(i) => LogStable(n, i)
    case Failed(i) => LogFailed(n, i)
    case Snapped(i) => TakeSnapshot(n, i)
  }

  function ReactAll(n: Node, es: seq<Event>): (m: Node)
    requires NodeOk(n)
    ensures NodeOk(m)
    decreases es
  {
    if es == [] then n else ReactAll(React(n, es[0]), es[1..])
  }

  /**
    The order in which writes succeed and fail: a success names an index that the log still has, and no
    failure that takes entries away comes after the success of one of them.
   */
  predicate InOrder(commit: int, last: int, stable: int, es: seq<Event>)
    decreases es
  {
    if es == [] then true
    else match es[0]
      case Started(_) => InOrder(commit, last + 1, stable, es[1..])
      case Succeeded(i) => i <= last && InOrder(commit, last, Max(stable, i), es[1..])
      case Failed(i) =>
        if commit < i <= last then stable < i && InOrder(commit, i - 1, stable, es[1..])
        else InOrder(commit, last, stable, es[1..])
      case Snapped(_) => InOrder(commit, last, stable, es[1..])
  }

  /** One event: what the log and the stable index become, and when the stable index stays in the log. */
  lemma ReactExact(n: Node, e: Event)
    requires NodeOk(n) && StableInLog(n) && n.role == Leader
    ensures var m := React(n, e);
      match e
      case Started(_) => LastIndex(m) == LastIndex(n) + 1 && m.stable == n.stable && StableInLog(m)
      case Succeeded(i) =>
        LastIndex(m) == LastIndex(n) && m.stable == Max(n.stable, i) && (StableInLog(m) <==> i <= LastIndex(n))
      case Failed(i) =>
        && m.stable == n.stable && (m != n <==> n.commit < i <= LastIndex(n))
        && LastIndex(m) == (if m == n then LastIndex(n) else i - 1)
        && (StableInLog(m) <==> m == n || n.stable < i)
      case Snapped(_) => LastIndex(m) == LastIndex(n) && m.stable == n.stable && StableInLog(m)
  {
    match e
    case Snapped(i) => TakeSteady(n, i);
    case _ =>
  }

  ghost predicate StableThroughout(n: Node, es: seq<Event>)
    requires NodeOk(n)
  {
    forall k :: 0 <= k <= |es| ==> StableInLog(ReactAll(n, es[..k]))
  }

  lemma StableThroughoutStep(n: Node, es: seq<Event>)
    requires NodeOk(n) && es != []
    ensures StableThroughout(n, es) <==> StableInLog(n) && StableThroughout(React(n, es[0]), es[1..])
  {
    forall k | 0 < k <= |es| ensures ReactAll(n, es[..k]) == ReactAll(React(n, es[0]), es[1..][..k - 1]) {
      assert es[..k][1..] == es[1..][..k - 1];
    }
    if StableThroughout(n, es) {
      assert ReactAll(n, es[..0]) == n;
      forall k | 0 <= k <= |es[1..]| ensures StableInLog(ReactAll(React(n, es[0]), es[1..][..k])) {
        assert StableInLog(ReactAll(n, es[..k + 1]));
      }
    }
  }

  /** A leader's stable index stays within its log exactly when its writes succeed and fail in order. */
  lemma {:induction false} StableExact(n: Node, es: seq<Event>)
    requires NodeOk(n) && StableInLog(n) && n.role == Leader
    ensures StableThroughout(n, es) <==> InOrder(n.commit, LastIndex(n), n.stable, es)
    decreases es
  {
    if es != [] {
      var m := React(n, es[0]);
      ReactExact(n, es[0]);
      StableThroughoutStep(n, es);
      if StableInLog(m) {
        StableExact(m, es[1..]);
      } else {
        assert ReactAll(m, es[1..][..0]) == m;
      }
    }
  }

  /**
    A failed write followed by the success of a later one leaves the stable index above the log:
    the next entry a leader appends would be sent before it is on disk.
   */
  lemma FailedWriteBreaksStable(n: Node, x: string, y: string)
    requires NodeOk(n) && n.role == Leader && n.stable == LastIndex(n)
    ensures
      var i := LastIndex(n) + 1;
      var two := StartCommand(StartCommand(n, x), y);
      var after := LogStable(LogFailed(two, i), i + 1);
      LastIndex(after) == LastIndex(n) && after.stable == LastIndex(n) + 2 && !StableInLog(after)
  {
    var i := LastIndex(n) + 1;
    var one := StartCommand(n, x);
    var two := StartCommand(one, y);
    assert LastIndex(one) == i && LastIndex(two) == i + 1;
    assert LogFailed(two, i).log == n.log;
  }

  // ------------------------------------------------------------------ the commit rule

  /** The peers below k whose match index reaches i. */
  ghost function MatchedBelow(n: Node, i: int, k: nat): (ps: set<nat>)
    requires k <= |n.matched|
    ensures forall p: nat :: p in ps <==> p < k && p != n.id && n.matched[p] >= i
    ensures Replicas(n, i, k) == 1 + |ps|
  {
    if k == 0 then {}
    else if k - 1 != n.id && n.matched[k - 1] >= i then MatchedBelow(n, i, k - 1) + {k - 1}
    else MatchedBelow(n, i, k - 1)
  }

  /** The peers whose match index reaches i, and the leader itself. */
  ghost function Replicators(n: Node, i: int): (ps: set<nat>)
    requires n.size <= |n.matched| && n.id < n.size
    ensures forall p: nat :: p in ps <==> p < n.size && (p == n.id || n.matched[p] >= i)
    ensures Replicas(n, i, n.size) == |ps|
  {
    MatchedBelow(n, i, n.size) + {n.id}
  }

  /** Figure 2 and section 5.4.2: index i may be committed now. */
  ghost predicate MayCommit(n: Node, i: int)
    requires NodeOk(n)
  {
    && n.commit < i <= LastIndex(n) && i <= n.stable
    && TermAt(n, i) == n.term
    && IsQuorum(Replicators(n, i), n.size)
  }

  lemma CommittableIsMayCommit(n: Node, i: int)
    requires NodeOk(n) && n.commit < i <= LastIndex(n) && i <= n.stable
    ensures Committable(n, i) <==> MayCommit(n, i)
  {}

  lemma {:induction false} CommitScanFinds(n: Node, i: int)
    requires NodeOk(n) && n.commit <= i <= LastIndex(n) && i <= n.stable
    ensures var c := CommitScan(n, i);
      && (c == n.commit || MayCommit(n, c))
      && (forall j :: c < j <= i ==> !MayCommit(n, j))
    decreases i - n.commit
  {
    if i > n.commit {
      CommittableIsMayCommit(n, i);
      if !Committable(n, i) {
        CommitScanFinds(n, i - 1);
      }
    }
  }

  /** advanceCommitIndex picks exactly the greatest index that may be committed, if there is one. */
  lemma AdvanceCommitExact(n: Node)
    requires NodeOk(n)
    ensures var n' := AdvanceCommit(n);
      && n' == n.(commit := n'.commit)
      && (n'.commit != n.commit ==> MayCommit(n, n'.commit))
      && (forall j :: MayCommit(n, j) ==> j <= n'.commit)
      && (n'.commit == n.commit <==> forall j :: !MayCommit(n, j))
  {
    CommitScanFinds(n, Min(LastIndex(n), n.stable));
  }

  // ------------------------------------------------------------------ conflict back-off

  /** i is where the run of term t that ends at index p begins, not counting the snapshot. */
  ghost predicate RunStart(n: Node, i: int, p: int, t: int) {
    && n.snapIndex < i <= p <= n.snapIndex + |n.log|
    && (forall j :: i <= j <= p ==> TermAt(n, j) == t)
    && (i == n.snapIndex + 1 || TermAt(n, i - 1) != t)
  }

  lemma {:induction false} BackOffFrom(n: Node, i: int, p: int, t: int)
    requires n.snapIndex <= i <= p <= n.snapIndex + |n.log| && n.snapIndex < p
    requires forall j :: i < j <= p ==> TermAt(n, j) == t
    requires TermAt(n, p) == t
    ensures RunStart(n, BackOff(n, i, t), p, t)
    decreases i - n.snapIndex
  {
    if i > n.snapIndex && TermAt(n, i) == t {
      BackOffFrom(n, i - 1, p, t);
    }
  }

  /** The hint of a refused request is the start of the conflicting run, so it lies below prev + 1. */
  lemma BackOffIsRunStart(n: Node, p: int)
    requires n.snapIndex < p <= n.snapIndex + |n.log|
    ensures RunStart(n, BackOff(n, p, TermAt(n, p)), p, TermAt(n, p))
    ensures n.snapIndex + 1 <= BackOff(n, p, TermAt(n, p)) <= p
  {
    BackOffFrom(n, p, p, TermAt(n, p));
  }

  // ------------------------------------------------------------------ replies and terms

  /** Every reply that moves the leader's indices carries the request's own term. */
  lemma RepliesCarryTerm(mode: Mode, n: Node, a: AppendArgs, ws: seq<Write>, synced: bool)
    requires IndexOk(n)
    ensures match ReceiveAppend(n, a)
      case Answered(n', r) => r.term == n'.term && (r.nextIndex != NO_HINT ==> r.term == a.term) && !r.success
      case Exited => true
      case Paused(n', _) => n'.term == a.term && n'.role == Follower
    ensures var (n', r) := ResumeAppend(mode, n, a, ws, synced);
      && r.term == n'.term
      && (r.success || r.nextIndex != NO_HINT ==> r.term == a.term)
  {}
}
