/**
  The gap in AppendEntries, as written. Between ReceiveAppend and ResumeAppend the node may take any
  number of other steps of the same term: other requests of the same leader at either stage,
  snapshots of its own or the leader's, votes, and failed writes of commands it took as a leader itself.
  As long as these failures take away no index that the request sends, the resumed request either
  leaves the log as it found it, or leaves it numbered and in agreement with the leader at every index
  it sent.
 */
module TwoPhase {
  import opened RaftTypes
  import opened RaftNode
  import opened RaftIndices

  /** The leader's log as the follower sees it: a term for every index. */
  type Terms = int -> int

  /** The log holds the leader's term at index i, or a snapshot covers i. */
  ghost predicate Agrees(log: seq<Entry>, base: int, terms: Terms, i: int) {
    i <= base || (i - base - 1 < |log| && log[i - base - 1].term == terms(i))
  }

  ghost predicate NodeAgrees(n: Node, terms: Terms, i: int) {
    Agrees(n.log, n.snapIndex, terms, i)
  }

  /** What every step in the gap keeps: the term, the index invariant, and agreement up to index top where there was any. */
  ghost predicate Rely(n: Node, n': Node, terms: Terms, top: int) {
    && n'.term == n.term && NodeOk(n') && n.snapIndex <= n'.snapIndex
    && (forall i {:trigger NodeAgrees(n', terms, i)} :: i <= top && NodeAgrees(n, terms, i) ==> NodeAgrees(n', terms, i))
  }

  /** A request as the leader with these terms builds it. */
  ghost predicate FromLeader(a: AppendArgs, terms: Terms) {
    forall k :: 0 <= k < |a.entries| ==>
      && a.entries[k].index == a.prevIndex + 1 + k
      && a.entries[k].term == terms(a.prevIndex + 1 + k)
  }

  ghost predicate WritesFrom(ws: seq<Write>, terms: Terms) {
    forall w <- ws :: w.entry.term == terms(w.entry.index)
  }

  /** The entry of index i is among the decided writes. */
  ghost predicate Decided(ws: seq<Write>, i: int) {
    exists w <- ws :: w.entry.index == i
  }

  // ------------------------------------------------------------------ the first half

  /** What ReceiveAppend does not write is already in agreement. */
  lemma {:induction false} WritesCover(n: Node, es: seq<Entry>, terms: Terms)
    requires IndexOk(n)
    requires forall e <- es :: e.term == terms(e.index)
    ensures WritesFrom(Writes(n, es), terms)
    ensures forall e <- es :: Decided(Writes(n, es), e.index) || NodeAgrees(n, terms, e.index)
    decreases es
  {
    if es != [] {
      var e := es[0];
      WritesCover(n, es[1..], terms);
      var rest := Writes(n, es[1..]);
      var ws := Writes(n, es);
      assert ws == rest || (|ws| > 0 && ws[0].entry == e && ws == [ws[0]] + rest);
      forall d <- es ensures Decided(ws, d.index) || NodeAgrees(n, terms, d.index) {
        if d == e {
          if ws != rest {
            assert ws[0] in ws;
          }
        } else {
          assert d in es[1..];
          if Decided(rest, d.index) {
            var w :| w in rest && w.entry.index == d.index;
            assert w in ws;
          }
        }
      }
    }
  }

  // ------------------------------------------------------------------ the second half

  /** Checked writes of the leader's entries keep agreement and add it at their own indices. */
  lemma {:induction false} ApplyAgrees(n: Node, ws: seq<Write>, log: seq<Entry>, terms: Terms, i: int)
    requires IndexOk(n) && Numbered(log, n.snapIndex) && |n.log| <= |log|
    requires Check(n, ws, n.snapIndex + |log|).Fits? && WritesFrom(ws, terms)
    ensures Agrees(log, n.snapIndex, terms, i) || Decided(ws, i) ==>
      Agrees(Apply(AsWritten, log, n.snapIndex, ws), n.snapIndex, terms, i)
    decreases ws
  {
    if ws != [] {
      var w := ws[0];
      var log' := if w.entry.index <= n.snapIndex then log
                  else if w.append then log + [w.entry] else log[w.slot := w.entry];
      ApplyAgrees(n, ws[1..], log', terms, i);
      assert Decided(ws, i) ==> w.entry.index == i || Decided(ws[1..], i);
    }
  }

  ghost predicate ReachesLeader(n: Node, a: AppendArgs, terms: Terms) {
    forall i :: a.prevIndex < i <= a.prevIndex + |a.entries| ==> NodeAgrees(n, terms, i)
  }

  /** Resuming with writes of the leader's entries is itself a step that others may rely on. */
  lemma ResumeIsRely(n: Node, a: AppendArgs, ws: seq<Write>, synced: bool, terms: Terms, top: int)
    requires NodeOk(n) && WritesFrom(ws, terms)
    ensures Rely(n, ResumeAppend(AsWritten, n, a, ws, synced).0, terms, top)
  {
    ResumeAppendSteady(n, a, ws, synced);
    if Check(n, ws, LastIndex(n)).Fits? {
      forall i ensures NodeAgrees(n, terms, i) ==>
          Agrees(Apply(AsWritten, n.log, n.snapIndex, ws), n.snapIndex, terms, i)
      {
        ApplyAgrees(n, ws, n.log, terms, i);
      }
    }
  }

  /** A request of the leader sends, at each of its indices, the leader's term. */
  lemma SentTerms(a: AppendArgs, terms: Terms)
    requires FromLeader(a, terms)
    ensures forall e <- a.entries :: e.term == terms(e.index)
  {
    forall e <- a.entries ensures e.term == terms(e.index) {
      var j :| 0 <= j < |a.entries| && a.entries[j] == e;
    }
  }

  /** What was not written before the gap agreed then, so it agrees now; what was written agrees now. */
  lemma AppliedReaches(k: Node, n: Node, a: AppendArgs, ws: seq<Write>, terms: Terms, i: int)
    requires IndexOk(n) && Check(n, ws, n.snapIndex + |n.log|).Fits? && WritesFrom(ws, terms)
    requires a.prevIndex < i <= a.prevIndex + |a.entries| && FromLeader(a, terms)
    requires forall e <- a.entries :: Decided(ws, e.index) || NodeAgrees(k, terms, e.index)
    requires NodeAgrees(k, terms, i) ==> NodeAgrees(n, terms, i)
    ensures Agrees(Apply(AsWritten, n.log, n.snapIndex, ws), n.snapIndex, terms, i)
  {
    var e := a.entries[i - a.prevIndex - 1];
    assert e in a.entries && e.index == i;
    ApplyAgrees(n, ws, n.log, terms, i);
  }

  /** A resumed request succeeds only if its writes fit, and then makes exactly these. */
  lemma Resumed(n: Node, a: AppendArgs, ws: seq<Write>, synced: bool)
    requires IndexOk(n)
    ensures var (m, r) := ResumeAppend(AsWritten, n, a, ws, synced);
      && r.term == m.term && (!r.success ==> m == n)
      && (r.success ==> r.term == a.term && Check(n, ws, LastIndex(n)).Fits?
                        && m.snapIndex == n.snapIndex && m.log == Apply(AsWritten, n.log, n.snapIndex, ws))
  {}

  /** The gap is safe: the writes decided before it still do the right thing after it, or nothing. */
  lemma GapSafe(n: Node, a: AppendArgs, terms: Terms, n': Node, synced: bool)
    requires NodeOk(n) && FromLeader(a, terms) && ReceiveAppend(n, a).Paused?
    requires Rely(ReceiveAppend(n, a).node, n', terms, Reach(a))
    ensures var (m, r) := ResumeAppend(AsWritten, n', a, ReceiveAppend(n, a).writes, synced);
      && NodeOk(m) && r.term == m.term
      && (!r.success ==> m == n')
      && (r.success ==> ReachesLeader(m, a, terms) && r.term == a.term)
  {
    var k := ReceiveAppend(n, a).node;
    var ws := ReceiveAppend(n, a).writes;
    assert ws == Writes(k, a.entries) && IndexOk(k);
    SentTerms(a, terms);
    WritesCover(k, a.entries, terms);
    hide Writes, ReceiveAppend, FromLeader, WritesFrom, Agrees, ResumeAppend, Check, Apply;
    ResumeAppendSteady(n', a, ws, synced);
    Resumed(n', a, ws, synced);
    if Check(n', ws, LastIndex(n')).Fits? {
      AllReached(k, n', a, ws, terms);
    }
  }

  lemma AllReached(k: Node, n: Node, a: AppendArgs, ws: seq<Write>, terms: Terms)
    requires NodeOk(n) && Check(n, ws, LastIndex(n)).Fits? && WritesFrom(ws, terms) && FromLeader(a, terms)
    requires Rely(k, n, terms, Reach(a))
    requires forall e <- a.entries :: Decided(ws, e.index) || NodeAgrees(k, terms, e.index)
    ensures forall i :: a.prevIndex < i <= a.prevIndex + |a.entries| ==>
      Agrees(Apply(AsWritten, n.log, n.snapIndex, ws), n.snapIndex, terms, i)
  {
    hide Check, Apply, FromLeader, WritesFrom, Agrees;
    forall i | a.prevIndex < i <= a.prevIndex + |a.entries|
      ensures Agrees(Apply(AsWritten, n.log, n.snapIndex, ws), n.snapIndex, terms, i)
    {
      AppliedReaches(k, n, a, ws, terms, i);
    }
  }

  // ------------------------------------------------------------------ everything that may run in the gap

  datatype Step =
    | Receive(args: AppendArgs)
    | Resume(args: AppendArgs, writes: seq<Write>, synced: bool)
    | Install(snapshot: SnapshotArgs)
    | Take(index: int)
    | Ask(vote: VoteArgs)
    | Fail(index: int)
    | Deliver

  /**
    A step of the node's own term. The append requests come from the term's leader; a failed write takes
    nothing away up to index top.
   */
  ghost predicate Admissible(n: Node, s: Step, terms: Terms, top: int)
    requires NodeOk(n)
  {
    match s
    case Receive(a) => a.term == n.term
    case Resume(a, ws, _) => WritesFrom(ws, terms)
    case Install(s) => s.term == n.term
    case Take(_) => true
    case Ask(v) => v.term <= n.term
    case Fail(index) => LogFailed(n, index) == n || top < index
    case Deliver => true
  }

  function Interfere(n: Node, s: Step): Node
    requires NodeOk(n)
  {
    match s
    case Receive(a) => if ReceiveAppend(n, a).Exited? then n else ReceiveAppend(n, a).node
    case Resume(a, ws, synced) => ResumeAppend(AsWritten, n, a, ws, synced).0
    case Install(s) => InstallSnapshot(AsWritten, n, s)
    case Take(index) => TakeSnapshot(n, index)
    case Ask(v) => ReceiveVote(n, v).0
    case Fail(index) => LogFailed(n, index)
    case Deliver => ApplyCommitted(n).0
  }

  lemma InstallIsRely(n: Node, s: SnapshotArgs, terms: Terms, top: int)
    requires NodeOk(n) && s.term == n.term
    ensures Rely(n, InstallSnapshot(AsWritten, n, s), terms, top)
  {
    InstallSteady(n, s);
  }

  lemma TakeIsRely(n: Node, index: int, terms: Terms, top: int)
    requires NodeOk(n)
    ensures Rely(n, TakeSnapshot(n, index), terms, top)
  {
    SnapshotSteady(n, n.id, SnapshotArgs(n.term, n.id, 0, 0, []), 0, index);
  }

  lemma InterfereIsRely(n: Node, s: Step, terms: Terms, top: int)
    requires NodeOk(n) && Admissible(n, s, terms, top)
    ensures Rely(n, Interfere(n, s), terms, top)
  {
    match s
    case Receive(a) => ReceiveAppendSteady(n, a);
    case Resume(a, ws, synced) => ResumeIsRely(n, a, ws, synced, terms, top);
    case Install(s) => InstallIsRely(n, s, terms, top);
    case Take(index) => TakeIsRely(n, index, terms, top);
    case Ask(v) => ElectionSteady(n, v);
    case Fail(index) =>
    case Deliver =>
  }

  ghost predicate AllAdmissible(n: Node, steps: seq<Step>, terms: Terms, top: int)
    requires NodeOk(n)
    decreases steps
  {
    steps != [] ==>
      && Admissible(n, steps[0], terms, top)
      && (InterfereIsRely(n, steps[0], terms, top); AllAdmissible(Interfere(n, steps[0]), steps[1..], terms, top))
  }

  ghost function During(n: Node, steps: seq<Step>, terms: Terms, top: int): Node
    requires NodeOk(n) && AllAdmissible(n, steps, terms, top)
    decreases steps
  {
    if steps == [] then n
    else InterfereIsRely(n, steps[0], terms, top); During(Interfere(n, steps[0]), steps[1..], terms, top)
  }

  lemma {:induction false} GapIsRely(n: Node, steps: seq<Step>, terms: Terms, top: int)
    requires NodeOk(n) && AllAdmissible(n, steps, terms, top)
    ensures Rely(n, During(n, steps, terms, top), terms, top)
    decreases steps
  {
    if steps != [] {
      InterfereIsRely(n, steps[0], terms, top);
      GapIsRely(Interfere(n, steps[0]), steps[1..], terms, top);
    }
  }

  /** Request a of the leader stops in its gap at node n, and the given steps run there. */
  ghost predicate GapRun(n: Node, a: AppendArgs, steps: seq<Step>, terms: Terms) {
    && NodeOk(n) && FromLeader(a, terms) && ReceiveAppend(n, a).Paused?
    && (ReceiveAppendSteady(n, a); AllAdmissible(ReceiveAppend(n, a).node, steps, terms, Reach(a)))
  }

  /** The node at the end of the gap. */
  ghost function AfterGap(n: Node, a: AppendArgs, steps: seq<Step>, terms: Terms): Node
    requires GapRun(n, a, steps, terms)
  {
    ReceiveAppendSteady(n, a);
    During(ReceiveAppend(n, a).node, steps, terms, Reach(a))
  }

  /** Two-phase AppendEntries is safe across the gap, for every run inside it. */
  lemma TwoPhaseSafe(n: Node, a: AppendArgs, terms: Terms, steps: seq<Step>, synced: bool)
    requires GapRun(n, a, steps, terms)
    ensures var k := AfterGap(n, a, steps, terms);
      && NodeOk(k)
      && var (m, r) := ResumeAppend(AsWritten, k, a, ReceiveAppend(n, a).writes, synced);
      && NodeOk(m) && r.term == m.term
      && (!r.success ==> m == k)
      && (r.success ==> ReachesLeader(m, a, terms) && r.term == a.term)
  {
    ReceiveAppendSteady(n, a);
    GapIsRely(ReceiveAppend(n, a).node, steps, terms, Reach(a));
    GapSafe(n, a, terms, AfterGap(n, a, steps, terms), synced);
  }

  // ------------------------------------------------------------------ failures in the gap

  /** A decided write is an append behind the log, or replaces the slot of its index. */
  predicate Placed(n: Node, w: Write) {
    if w.append then w.entry.index > n.snapIndex + |n.log|
    else n.snapIndex < w.entry.index <= n.snapIndex + |n.log| && w.slot == w.entry.index - n.snapIndex - 1
  }

  lemma {:induction false} WritesPlaced(n: Node, es: seq<Entry>)
    requires IndexOk(n)
    ensures forall w <- Writes(n, es) :: Placed(n, w)
    decreases es
  {
    if es != [] {
      WritesPlaced(n, es[1..]);
    }
  }

  predicate AllBelow(ws: seq<Write>, index: int) {
    forall w <- ws :: w.entry.index < index
  }

  /** Node k with its log cut in front of index. */
  ghost predicate CutAt(k: Node, d: Node, index: int) {
    && IndexOk(k) && IndexOk(d) && k.snapIndex < index <= k.snapIndex + |k.log|
    && d == k.(log := k.log[..index - k.snapIndex - 1])
  }

  /** Decided writes still fit a log that has been cut exactly if they all lie in front of the cut. */
  lemma {:induction false} CutFits(k: Node, d: Node, index: int, ws: seq<Write>)
    requires CutAt(k, d, index) && forall w <- ws :: Placed(k, w)
    ensures Check(d, ws, index - 1).Fits? <==> AllBelow(ws, index)
    decreases ws
  {
    if ws != [] {
      var w := ws[0];
      assert Placed(k, w);
      CutFits(k, d, index, ws[1..]);
      assert AllBelow(ws, index) <==> w.entry.index < index && AllBelow(ws[1..], index);
    }
  }

  /** Then they leave the length of the log as it is. */
  lemma {:induction false} SlotsKeepLength(log: seq<Entry>, base: int, ws: seq<Write>)
    requires forall w <- ws :: !w.append
    ensures |Apply(AsWritten, log, base, ws)| == |log|
    decreases ws
  {
    if ws != [] {
      var w := ws[0];
      SlotsKeepLength(if w.entry.index <= base then log
                      else if 0 <= w.slot < |log| then log[w.slot := w.entry] else log, base, ws[1..]);
    }
  }

  /** What the first half has decided, of a request of the leader. */
  ghost predicate Halfway(k: Node, a: AppendArgs, ws: seq<Write>, terms: Terms) {
    && NodeOk(k) && FromLeader(a, terms) && k.term == a.term
    && k.snapIndex <= a.prevIndex <= LastIndex(k) && TermAt(k, a.prevIndex) == a.prevTerm
    && WritesFrom(ws, terms) && (forall w <- ws :: Placed(k, w))
    && (forall e <- a.entries :: Decided(ws, e.index) || NodeAgrees(k, terms, e.index))
  }

  lemma PausedHalfway(n: Node, a: AppendArgs, terms: Terms)
    requires NodeOk(n) && FromLeader(a, terms) && ReceiveAppend(n, a).Paused?
    ensures Halfway(ReceiveAppend(n, a).node, a, ReceiveAppend(n, a).writes, terms)
    ensures var k := ReceiveAppend(n, a).node; k.log == n.log && k.snapIndex == n.snapIndex && k.commit == n.commit
  {
    var k := ReceiveAppend(n, a).node;
    assert k == BecomeFollower(n, a.term) && ReceiveAppend(n, a).writes == Writes(k, a.entries);
    SentTerms(a, terms);
    WritesCover(k, a.entries, terms);
    WritesPlaced(k, a.entries);
  }

  lemma FailureCuts(k: Node, index: int)
    requires NodeOk(k) && k.commit < index <= LastIndex(k)
    ensures CutAt(k, LogFailed(k, index), index) && NodeOk(LogFailed(k, index))
    ensures LastIndex(LogFailed(k, index)) == index - 1
  {}

  /** When the request is acknowledged on the cut log, and what the log is then. */
  lemma AcknowledgedAfter(k: Node, d: Node, a: AppendArgs, ws: seq<Write>, terms: Terms, index: int, synced: bool)
    requires Halfway(k, a, ws, terms) && CutAt(k, d, index) && LastIndex(d) == index - 1
    ensures var (m, r) := ResumeAppend(AsWritten, d, a, ws, synced);
      && (r.success <==> (synced || ws == []) && a.prevIndex < index && AllBelow(ws, index))
      && (r.success ==> Check(d, ws, index - 1).Fits?
                        && m.log == Apply(AsWritten, d.log, d.snapIndex, ws) && m.snapIndex == d.snapIndex)
  {
    CutFits(k, d, index, ws);
    hide Check, Apply, Placed, AllBelow, WritesFrom, FromLeader;
  }

  /** What is in front of the cut agrees with the leader after the writes, and the index of the cut is missing. */
  lemma LeftAfter(k: Node, d: Node, a: AppendArgs, ws: seq<Write>, terms: Terms, index: int)
    requires Halfway(k, a, ws, terms) && CutAt(k, d, index) && AllBelow(ws, index)
    requires Check(d, ws, index - 1).Fits? && a.prevIndex < index
    ensures (forall i :: a.prevIndex < i <= Reach(a) ==>
               Agrees(Apply(AsWritten, d.log, d.snapIndex, ws), d.snapIndex, terms, i)) <==> index > Reach(a)
  {
    assert forall w <- ws :: Placed(k, w) && !w.append;
    SlotsKeepLength(d.log, d.snapIndex, ws);
    if index <= Reach(a) {
      assert !Agrees(Apply(AsWritten, d.log, d.snapIndex, ws), d.snapIndex, terms, index);
    } else {
      forall i | a.prevIndex < i <= Reach(a)
        ensures Agrees(Apply(AsWritten, d.log, d.snapIndex, ws), d.snapIndex, terms, i)
      {
        AppliedReaches(k, d, a, ws, terms, i);
      }
    }
  }

  /**
    A failure that does take entries away in the gap of a request. The request still holds what it
    acknowledges exactly if the failure spares what is sent, or takes away the previous entry as well or one
    that was to be written, so that the request is refused.
   */
  lemma FailureInGap(n: Node, a: AppendArgs, terms: Terms, index: int, synced: bool)
    requires NodeOk(n) && FromLeader(a, terms) && ReceiveAppend(n, a).Paused?
    requires n.commit < index <= LastIndex(n)
    ensures var k, ws := ReceiveAppend(n, a).node, ReceiveAppend(n, a).writes;
      var (m, r) := ResumeAppend(AsWritten, LogFailed(k, index), a, ws, synced);
      (r.success ==> ReachesLeader(m, a, terms))
      <==> || index > Reach(a) || index <= a.prevIndex || (exists w <- ws :: w.entry.index >= index)
           || !(synced || ws == [])
  {
    var k, ws := ReceiveAppend(n, a).node, ReceiveAppend(n, a).writes;
    PausedHalfway(n, a, terms);
    SameLast(n, k);
    FailureCuts(k, index);
    hide ReceiveAppend, Halfway, CutAt, FromLeader, Agrees, NodeOk, IndexOk, LastIndex;
    var d := LogFailed(k, index);
    AcknowledgedAfter(k, d, a, ws, terms, index, synced);
    hide ResumeAppend, LogFailed, Check, Apply;
    if (synced || ws == []) && a.prevIndex < index && AllBelow(ws, index) {
      LeftAfter(k, d, a, ws, terms, index);
      ReachesMeans(ResumeAppend(AsWritten, d, a, ws, synced).0, a, terms);
    }
  }

  lemma ReachesMeans(m: Node, a: AppendArgs, terms: Terms)
    ensures ReachesLeader(m, a, terms)
      <==> forall i :: a.prevIndex < i <= Reach(a) ==> Agrees(m.log, m.snapIndex, terms, i)
  {
    forall i ensures NodeAgrees(m, terms, i) <==> Agrees(m.log, m.snapIndex, terms, i) {}
  }

  lemma SameLast(n: Node, k: Node)
    requires k.log == n.log && k.snapIndex == n.snapIndex
    ensures LastIndex(k) == LastIndex(n)
  {}

  /**
    A server that took a command as the leader of term 1 and hears from the leader of term 2, which sends it
    the same entry. It has nothing to write; then its own write fails, and it acknowledges an empty log.
   */
  lemma AcknowledgesNothing(x: string)
    ensures var e := Entry(x, 1, 1);
      var n := Node(0, 3, 1, 0, Leader, [e], 0, 0, [], 0, 0, 0, [0, 1, 1], [0, 0, 0], 2, {1}, {2});
      var a := AppendArgs(2, 1, 0, 0, [e], 0);
      && NodeOk(n) && ReceiveAppend(n, a).Paused? && ReceiveAppend(n, a).writes == []
      && var (m, r) := ResumeAppend(AsWritten, LogFailed(ReceiveAppend(n, a).node, 1), a, [], true);
      m.log == [] && r == AppendReply(2, true, NO_HINT)
  {
    var e := Entry(x, 1, 1);
    var n := Node(0, 3, 1, 0, Leader, [e], 0, 0, [], 0, 0, 0, [0, 1, 1], [0, 0, 0], 2, {1}, {2});
    var a := AppendArgs(2, 1, 0, 0, [e], 0);
    var k := BecomeFollower(n, 2);
    assert [e][1..] == [] && Writes(k, []) == [];
    assert Writes(k, [e]) == [];
    assert ReceiveAppend(n, a) == Paused(k, []);
    assert LogFailed(k, 1).log == [];
  }
}
