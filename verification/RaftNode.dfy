/**
  What one Raft server does in each lock-held section of src/raft/raft.cc, as a function from the
  node's state to the next. AppendEntries releases the lock while the write-ahead log is synced, so
  it is two functions: ReceiveAppend up to the release, ResumeAppend from the re-acquisition.

  A snapshot's contents are modelled as the entries it covers. Mode selects the handlers as written,
  or with three repairs: a conflict truncates the log (as the replay of the write-ahead log does), an
  installed snapshot keeps the tail only if the log agrees with the snapshot's last entry, and a
  heartbeat whose previous index lies above the stable index sends the clamped one. Where the first two
  shorten the log they lower the stable index to its end.
 */
module RaftNode {
  import opened RaftTypes

  datatype Node = Node(
    id: nat, size: nat,
    term: int, vote: int, role: Role,
    log: seq<Entry>, snapIndex: int, snapTerm: int, snapData: seq<Entry>,
    commit: int, stable: int, applied: int,
    next: seq<int>, matched: seq<int>,
    // the election in progress: its vote counter, the peers counted in it, the calls not answered yet
    votes: int, granters: set<nat>, awaiting: set<nat>)

  datatype VoteArgs = VoteArgs(term: int, candidate: nat, lastIndex: int, lastTerm: int)
  datatype VoteReply = VoteReply(term: int, granted: bool)
  datatype AppendArgs = AppendArgs(term: int, leader: nat, prevIndex: int, prevTerm: int,
                                   entries: seq<Entry>, leaderCommit: int)
  /** The last index a request sends. */
  function Reach(a: AppendArgs): int {
    a.prevIndex + |a.entries|
  }

  datatype AppendReply = AppendReply(term: int, success: bool, nextIndex: int)
  datatype SnapshotArgs = SnapshotArgs(term: int, leader: nat, lastIndex: int, lastTerm: int, data: seq<Entry>)

  /** A log write decided before the lock is released. */
  datatype Write = Write(slot: int, append: bool, entry: Entry)

  /** "No hint": the reply does not move the leader's next index. */
  const NO_HINT := -100

  // ------------------------------------------------------------------ indices

  /** m_logs[k] holds the entry with index snapIndex + 1 + k. */
  ghost predicate IndexOk(n: Node) {
    Numbered(n.log, n.snapIndex)
  }

  ghost predicate Numbered(log: seq<Entry>, base: int) {
    forall k :: 0 <= k < |log| ==> log[k].index == base + 1 + k
  }

  function LastIndex(n: Node): (i: int)
    ensures IndexOk(n) ==> i == n.snapIndex + |n.log|
  {
    if n.log == [] then n.snapIndex else n.log[|n.log| - 1].index
  }

  function LastTerm(n: Node): int {
    if n.log == [] then n.snapTerm else n.log[|n.log| - 1].term
  }

  predicate Holds(n: Node, i: int) {
    n.snapIndex <= i <= n.snapIndex + |n.log|
  }

  function TermAt(n: Node, i: int): int
    requires Holds(n, i)
  {
    if i == n.snapIndex then n.snapTerm else n.log[i - n.snapIndex - 1].term
  }

  function Min(a: int, b: int): int { if a < b then a else b }
  function Max(a: int, b: int): int { if a < b then b else a }

  // ------------------------------------------------------------------ elections

  /** Adopt a term at least as new, as a follower; a newer term clears the vote. */
  function BecomeFollower(n: Node, t: int): Node {
    n.(term := t, vote := if t > n.term then -1 else n.vote, role := Follower)
  }

  function Peers(n: Node): set<nat> {
    Ids(n.size) - {n.id}
  }

  /** doElection */
  function StartElection(n: Node): Node {
    if n.role == Leader then n else
      n.(role := Candidate, term := n.term + 1, vote := n.id,
         votes := 1, granters := {}, awaiting := Peers(n))
  }

  function VoteRequest(n: Node): VoteArgs {
    VoteArgs(n.term, n.id, LastIndex(n), LastTerm(n))
  }

  /** RequestVote */
  function ReceiveVote(n: Node, a: VoteArgs): (Node, VoteReply) {
    if a.term < n.term then (n, VoteReply(n.term, false)) else
    var m := if a.term > n.term then BecomeFollower(n, a.term) else n;
    if !(a.lastTerm > LastTerm(m) || (a.lastTerm == LastTerm(m) && a.lastIndex >= LastIndex(m))) then
      (m, VoteReply(m.term, false))
    else if m.vote != -1 && m.vote != a.candidate then
      (m, VoteReply(m.term, false))
    else
      (m.(vote := a.candidate), VoteReply(m.term, true))
  }

  /** The reset of the leader's view of its peers. */
  function FreshNext(n: Node): seq<int> {
    seq(|n.next|, p requires 0 <= p < |n.next| => if p == n.id then n.next[p] else LastIndex(n) + 1)
  }

  function FreshMatched(n: Node): seq<int> {
    seq(|n.matched|, p requires 0 <= p < |n.matched| => if p == n.id then n.matched[p] else 0)
  }

  /** handleRequestVoteResponse, for a call that has not been answered before */
  function HandleVote(n: Node, peer: nat, a: VoteArgs, r: VoteReply): Node {
    if r.term > n.term then BecomeFollower(n, r.term)
    else if r.term < n.term then n
    else if n.role != Candidate || a.term != n.term then n
    else if !r.granted then n
    else
      var m := n.(votes := n.votes + 1, granters := n.granters + {peer});
      if m.votes >= m.size / 2 + 1 then
        m.(role := Leader, next := FreshNext(m), matched := FreshMatched(m))
      else m
  }

  /**
    The call table runs the callback of each call at most once. The calls of this election that still wait
    are in awaiting; a response is heard exactly while its call waits (PendingCalls.HeardWhileWaiting).
   */
  function AnswerVote(n: Node, peer: nat, a: VoteArgs, r: VoteReply): Node {
    if a.term == n.term && peer !in n.awaiting then n
    else HandleVote(if a.term == n.term then n.(awaiting := n.awaiting - {peer}) else n, peer, a, r)
  }

  // ------------------------------------------------------------------ replication: the leader

  /** Abort is a failed assertion, OutOfRange a read behind the end of m_logs (include/raft/raft.h:213). */
  datatype Beat = Silent | Lagging | OutOfRange | Abort | Send(args: AppendArgs)

  /** The process does not come through this heartbeat. */
  predicate Stops(b: Beat) {
    b.Abort? || b.OutOfRange?
  }

  /** One peer's turn in doHeartBeat; Lagging peers get a snapshot from a thread of their own. */
  function Heartbeat(mode: Mode, n: Node, p: nat): (Node, Beat)
    requires IndexOk(n) && p < |n.next|
  {
    if n.role != Leader || p == n.id then (n, Silent)
    else if n.next[p] < 1 then (n, Abort)
    else if n.next[p] <= n.snapIndex then (n, Lagging)
    else if !Holds(n, n.next[p] - 1) then (n, OutOfRange)
    else if n.next[p] - 1 > n.stable then
      // the request already carries the unclamped index, so the assertion on its length fails
      if mode == AsWritten || !Holds(n, n.stable) then (n.(next := n.next[p := n.stable + 1]), Abort)
      else BeatFrom(n.(next := n.next[p := n.stable + 1]), n.stable)
    else BeatFrom(n, n.next[p] - 1)
  }

  /** The request for everything stable after index prev; it must reach exactly the stable index. */
  function BeatFrom(n: Node, prev: int): (Node, Beat)
    requires IndexOk(n) && Holds(n, prev) && prev <= n.stable
  {
    var upTo := Min(n.stable, LastIndex(n));
    var entries := n.log[prev - n.snapIndex..upTo - n.snapIndex];
    if prev + |entries| != n.stable then (n, Abort)
    else (n, Send(AppendArgs(n.term, n.id, prev, TermAt(n, prev), entries, n.commit)))
  }

  /** How many nodes are known to hold index i: the leader itself and peers below k. */
  function Replicas(n: Node, i: int, k: nat): nat
    requires k <= |n.matched|
  {
    if k == 0 then 1
    else Replicas(n, i, k - 1) + (if k - 1 != n.id && n.matched[k - 1] >= i then 1 else 0)
  }

  predicate Committable(n: Node, i: int)
    requires n.snapIndex < i <= n.snapIndex + |n.log| && n.size <= |n.matched|
  {
    Replicas(n, i, n.size) >= n.size / 2 + 1 && n.log[i - n.snapIndex - 1].term == n.term
  }

  /** The downward scan of advanceCommitIndex, from index i. */
  function CommitScan(n: Node, i: int): int
    requires i <= n.snapIndex + |n.log| && n.snapIndex <= n.commit && n.size <= |n.matched|
    decreases i - n.commit
  {
    if i <= n.commit then n.commit
    else if Committable(n, i) then i
    else CommitScan(n, i - 1)
  }

  /** advanceCommitIndex */
  function AdvanceCommit(n: Node): Node
    requires NodeOk(n)
  {
    n.(commit := CommitScan(n, Min(LastIndex(n), n.stable)))
  }

  /** handleAppendEntries */
  function HandleAppend(n: Node, peer: nat, a: AppendArgs, r: AppendReply): Node
    requires NodeOk(n) && peer < n.size
  {
    if r.term > n.term then BecomeFollower(n, r.term)
    else if r.term < n.term then n
    else if n.role != Leader then n
    else if !r.success then
      if r.nextIndex == NO_HINT then n else n.(next := n.next[peer := r.nextIndex])
    else
      var m := Max(n.matched[peer], a.prevIndex + |a.entries|);
      AdvanceCommit(n.(matched := n.matched[peer := m], next := n.next[peer := m + 1]))
  }

  /** Start: a leader appends a client's command. */
  function StartCommand(n: Node, command: string): Node {
    if n.role != Leader then n
    else n.(log := n.log + [Entry(command, n.term, LastIndex(n) + 1)])
  }

  /** onLogStable(true, i): the entry at index i has reached the disk. */
  function LogStable(n: Node, i: int): Node {
    n.(stable := Max(n.stable, i))
  }

  /** onLogStable(false, i): the write failed, and the entries from i on are given up. */
  function LogFailed(n: Node, i: int): Node
    requires IndexOk(n)
  {
    if i > n.commit && i > n.snapIndex && i - n.snapIndex - 1 < |n.log|
    then n.(log := n.log[..i - n.snapIndex - 1])
    else n
  }

  // ------------------------------------------------------------------ replication: the follower

  /** The downward scan for the start of the conflicting term's run. */
  function BackOff(n: Node, i: int, t: int): int
    requires i <= n.snapIndex + |n.log|
    decreases i - n.snapIndex
  {
    if i < n.snapIndex then n.snapIndex + 1
    else if TermAt(n, i) != t then i + 1
    else BackOff(n, i - 1, t)
  }

  /** Same index and term as a held entry, but another command: the process exits. */
  predicate Clashes(n: Node, e: Entry)
    requires IndexOk(n)
  {
    && n.snapIndex < e.index <= LastIndex(n)
    && n.log[e.index - n.snapIndex - 1].term == e.term
    && n.log[e.index - n.snapIndex - 1].command != e.command
  }

  /** The writes a request needs, decided against the log before the lock is released. */
  function Writes(n: Node, es: seq<Entry>): (ws: seq<Write>)
    requires IndexOk(n)
  {
    if es == [] then []
    else
      var e := es[0];
      var rest := Writes(n, es[1..]);
      if e.index <= n.snapIndex then rest
      else if e.index > LastIndex(n) then [Write(-1, true, e)] + rest
      else
        var slot := e.index - n.snapIndex - 1;
        if n.log[slot].term != e.term then [Write(slot, false, e)] + rest else rest
  }

  datatype AppendOutcome =
    | Answered(node: Node, reply: AppendReply)
    | Exited
    | Paused(node: Node, writes: seq<Write>)

  function Refuse(n: Node, hint: int): AppendOutcome {
    Answered(n, AppendReply(n.term, false, hint))
  }

  /** AppendEntries, up to the release of the lock */
  function ReceiveAppend(n: Node, a: AppendArgs): AppendOutcome
    requires IndexOk(n)
  {
    if a.term < n.term then Refuse(n, NO_HINT) else
    var m := BecomeFollower(n, a.term);
    if a.prevIndex > LastIndex(m) then Refuse(m, LastIndex(m) + 1)
    else if a.prevIndex < m.snapIndex then Refuse(m, m.snapIndex + 1)
    else if TermAt(m, a.prevIndex) != a.prevTerm then
      Refuse(m, BackOff(m, a.prevIndex, TermAt(m, a.prevIndex)))
    else if exists e <- a.entries :: Clashes(m, e) then Exited
    else Paused(m, Writes(m, a.entries))
  }

  datatype Verdict = Fits | Misfit(hint: int)

  /** Do the decided writes still fit the log? last runs along with the appended indices. */
  function Check(n: Node, ws: seq<Write>, last: int): Verdict {
    if ws == [] then Fits
    else
      var w := ws[0];
      if w.entry.index <= n.snapIndex then Check(n, ws[1..], last)
      else if w.append then
        if w.entry.index != last + 1 then Misfit(last + 1) else Check(n, ws[1..], w.entry.index)
      else if w.slot < 0 || w.slot >= |n.log| then Misfit(LastIndex(n) + 1)
      else if n.log[w.slot].index != w.entry.index then Misfit(LastIndex(n) + 1)
      else Check(n, ws[1..], last)
  }

  /** The rule of the write-ahead log's replay, keeping an entry that is already there. */
  function Place(log: seq<Entry>, base: int, e: Entry): seq<Entry>
    requires e.index > base
  {
    var k := e.index - base - 1;
    if k > |log| then log
    else if k < |log| && log[k].term == e.term then log
    else log[..k] + [e]
  }

  /** The decided writes, applied in order. */
  function Apply(mode: Mode, log: seq<Entry>, base: int, ws: seq<Write>): seq<Entry>
    decreases ws
  {
    if ws == [] then log
    else
      var w := ws[0];
      var log' :=
        if w.entry.index <= base then log
        else if mode == Intended then Place(log, base, w.entry)
        else if w.append then log + [w.entry]
        else if 0 <= w.slot < |log| then log[w.slot := w.entry] else log;
      Apply(mode, log', base, ws[1..])
  }

  /** AppendEntries, from the re-acquisition of the lock; synced says the writes reached the disk. */
  function ResumeAppend(mode: Mode, n: Node, a: AppendArgs, ws: seq<Write>, synced: bool): (Node, AppendReply)
    requires IndexOk(n)
  {
    if !(synced || ws == []) || n.term != a.term then (n, AppendReply(n.term, false, NO_HINT))
    else if a.prevIndex > LastIndex(n) then (n, AppendReply(n.term, false, LastIndex(n) + 1))
    else if a.prevIndex < n.snapIndex then (n, AppendReply(n.term, false, n.snapIndex + 1))
    else if TermAt(n, a.prevIndex) != a.prevTerm then (n, AppendReply(n.term, false, n.snapIndex + 1))
    else
      match Check(n, ws, LastIndex(n))
      case Misfit(hint) => (n, AppendReply(n.term, false, hint))
      case Fits =>
        var m := n.(log := Apply(mode, n.log, n.snapIndex, ws));
        var last := LastIndex(m);
        (m.(stable := if mode == Intended then last else Max(m.stable, last),
            commit := if a.leaderCommit > m.commit then Min(a.leaderCommit, last) else m.commit),
         AppendReply(m.term, true, NO_HINT))
  }

  // ------------------------------------------------------------------ snapshots

  /** leaderSendSnapShot; it runs in its own thread and does not check the role. */
  function SnapshotRequest(n: Node): SnapshotArgs {
    SnapshotArgs(n.term, n.id, n.snapIndex, n.snapTerm, n.snapData)
  }

  /** What InstallSnapshot keeps of the log behind the snapshot. */
  function TailAfter(mode: Mode, n: Node, s: SnapshotArgs): seq<Entry>
    requires IndexOk(n) && s.lastIndex > n.snapIndex
  {
    if LastIndex(n) <= s.lastIndex then []
    else if mode == Intended && TermAt(n, s.lastIndex) != s.lastTerm then []
    else n.log[s.lastIndex - n.snapIndex..]
  }

  /** InstallSnapshot; the reply carries only the term of the resulting node. */
  function InstallSnapshot(mode: Mode, n: Node, s: SnapshotArgs): Node
    requires IndexOk(n)
  {
    if s.term < n.term then n else
    var m := BecomeFollower(n, s.term);
    if s.lastIndex <= m.snapIndex then m
    else
      var tail := TailAfter(mode, m, s);
      m.(log := tail,
         commit := Max(m.commit, s.lastIndex),
         stable := if mode == Intended then Min(Max(m.stable, s.lastIndex), s.lastIndex + |tail|)
                   else Max(m.stable, s.lastIndex),
         applied := Max(m.applied, s.lastIndex),
         snapIndex := s.lastIndex, snapTerm := s.lastTerm, snapData := s.data)
  }

  /** leaderSendSnapShotHandler */
  function HandleSnapshot(n: Node, peer: nat, s: SnapshotArgs, replyTerm: int): Node
    requires peer < |n.next| && peer < |n.matched|
  {
    if n.role != Leader || n.term != s.term then n
    else if replyTerm > n.term then BecomeFollower(n, replyTerm)
    else n.(matched := n.matched[peer := s.lastIndex], next := n.next[peer := s.lastIndex + 1])
  }

  /** Snapshot: the state machine has a snapshot of everything up to index. */
  function TakeSnapshot(n: Node, index: int): Node
    requires NodeOk(n)
  {
    if n.snapIndex >= index || index > n.commit then n
    else
      var k := index - n.snapIndex;
      n.(snapIndex := index, snapTerm := n.log[k - 1].term, snapData := n.snapData + n.log[..k],
         log := n.log[k..],
         commit := Max(n.commit, index), stable := Max(n.stable, index), applied := Max(n.applied, index))
  }

  // ------------------------------------------------------------------ application

  datatype ApplyMsg = CommandMsg(index: int, command: string) | SnapshotMsg(lastIndex: int, data: seq<Entry>)

  /** copyLogs(start, end) */
  function CopyLogs(n: Node, start: int, end: int): seq<ApplyMsg>
    requires n.snapIndex < start && end <= n.snapIndex + |n.log|
    decreases end - start
  {
    if start > end then []
    else [CommandMsg(start, n.log[start - n.snapIndex - 1].command)] + CopyLogs(n, start + 1, end)
  }

  /** One round of applierTicker: what it hands on, and the node afterwards. */
  function ApplyCommitted(n: Node): (Node, seq<ApplyMsg>)
    requires NodeOk(n)
  {
    if n.applied >= n.commit then (n, [])
    else (n.(applied := n.commit), CopyLogs(n, n.applied + 1, n.commit))
  }

  // ------------------------------------------------------------------ the index invariant

  /** What every subscript into m_logs relies on. */
  ghost predicate NodeOk(n: Node) {
    && IndexOk(n)
    && n.id < n.size && |n.next| == n.size && |n.matched| == n.size
    && 0 <= n.snapIndex <= n.applied <= n.commit <= LastIndex(n)
    && n.commit <= n.stable
  }
}
