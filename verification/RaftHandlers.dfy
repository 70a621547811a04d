/**
  What each handler does to the server and what it answers, field by field: when a vote is given and when
  it makes a leader, where a peer's indices go, when a request is taken, and which entries a snapshot
  takes out of the log. The statements are about the fields before and after, for arbitrary messages.
 */
module RaftHandlers {
  import opened RaftTypes
  import opened RaftNode
  import R = RaftIndices

  // ------------------------------------------------------------------ elections

  /** Standing for election: a new term, the own vote, and a count that starts from it. */
  lemma StandsExact(n: Node)
    requires NodeOk(n)
    ensures var m, a := StartElection(n), VoteRequest(StartElection(n));
      if n.role == Leader then m == n else
      && m.term == n.term + 1 && m.vote == n.id && m.role == Candidate && m.votes == 1 && m.granters == {}
      && (forall p: nat :: p in m.awaiting <==> p < n.size && p != n.id)
      && m == n.(term := m.term, vote := m.vote, role := m.role, votes := 1, granters := {}, awaiting := m.awaiting)
      && a.term == m.term && a.candidate == n.id && a.lastIndex == n.snapIndex + |n.log|
      && a.lastTerm == TermAt(n, a.lastIndex)
  {}

  /** The candidate's log ends in a later term, or in the same one and not before the voter's. */
  predicate UpToDate(n: Node, a: VoteArgs)
    requires NodeOk(n)
  {
    var last := n.snapIndex + |n.log|;
    a.lastTerm > TermAt(n, last) || (a.lastTerm == TermAt(n, last) && a.lastIndex >= last)
  }

  /**
    A vote is given exactly in a term that is not over, to a log that is up to date, and to nobody else in
    the same term; in any case the server ends, and answers, in the later of the two terms.
   */
  lemma VoteExact(n: Node, a: VoteArgs)
    requires NodeOk(n)
    ensures var (m, r) := ReceiveVote(n, a);
      && (r.granted <==> a.term >= n.term && UpToDate(n, a) && (a.term > n.term || n.vote == -1 || n.vote == a.candidate))
      && r.term == m.term == Max(n.term, a.term)
      && (r.granted ==> m.vote == a.candidate)
      && (!r.granted ==> m.vote == if a.term > n.term then -1 else n.vote)
      && m.role == (if a.term > n.term then Follower else n.role)
      && m == n.(term := m.term, vote := m.vote, role := m.role)
  {}

  /** The grant is counted: the call was waiting, and the election it is for is still going on. */
  predicate Counts(n: Node, peer: nat, a: VoteArgs, r: VoteReply) {
    r.granted && r.term == a.term == n.term && n.role == Candidate && peer in n.awaiting
  }

  /**
    An answer makes a leader exactly if it is counted and the votes are more than half of all servers; then
    every other server is taken to lack nothing yet and to hold nothing for sure. A later term ends the
    candidacy, unless the call has been answered before.
   */
  lemma AnswerVoteExact(n: Node, peer: nat, a: VoteArgs, r: VoteReply)
    requires NodeOk(n)
    ensures var m := AnswerVote(n, peer, a, r);
      var later := r.term > n.term && (a.term != n.term || peer in n.awaiting);
      && (m.role == Leader && n.role != Leader <==> Counts(n, peer, a, r) && 2 * (n.votes + 1) > n.size)
      && (m.role == Follower && n.role != Follower <==> later && n.role != Follower)
      && m.term == (if later then r.term else n.term) && m.vote == (if later then -1 else n.vote)
      && m.votes == n.votes + (if Counts(n, peer, a, r) then 1 else 0)
      && m.granters == (if Counts(n, peer, a, r) then n.granters + {peer} else n.granters)
      && m.awaiting == (if a.term == n.term then n.awaiting - {peer} else n.awaiting)
      && |m.next| == |m.matched| == n.size
      && (forall p: nat :: p < n.size ==>
            if m.role == Leader && n.role != Leader && p != n.id
            then m.next[p] == n.snapIndex + |n.log| + 1 && m.matched[p] == 0
            else m.next[p] == n.next[p] && m.matched[p] == n.matched[p])
      && m == n.(role := m.role, term := m.term, vote := m.vote, votes := m.votes, granters := m.granters,
                 awaiting := m.awaiting, next := m.next, matched := m.matched)
  {
    var m := AnswerVote(n, peer, a, r);
    assert peer !in n.awaiting ==> n.awaiting - {peer} == n.awaiting;
    if Counts(n, peer, a, r) {
      FreshExact(n.(votes := m.votes, granters := m.granters, awaiting := m.awaiting));
    }
  }

  lemma FreshExact(n: Node)
    requires NodeOk(n)
    ensures |FreshNext(n)| == |FreshMatched(n)| == n.size
    ensures forall p: nat :: p < n.size ==>
      && FreshNext(n)[p] == (if p == n.id then n.next[p] else n.snapIndex + |n.log| + 1)
      && FreshMatched(n)[p] == (if p == n.id then n.matched[p] else 0)
  {}

  // ------------------------------------------------------------------ the leader and its peers

  /** All that a server becomes by hearing of term t: its vote is its own again if the term is new. */
  predicate Follows(n: Node, m: Node, t: int) {
    && m.term == t && m.role == Follower && m.vote == (if t > n.term then -1 else n.vote)
    && m == n.(term := t, role := Follower, vote := m.vote)
  }

  /** Only what is known of this peer has changed. */
  predicate MovesPeer(n: Node, m: Node, peer: nat)
    requires peer < |n.next| && peer < |n.matched|
  {
    && |m.next| == |n.next| && |m.matched| == |n.matched|
    && (forall p :: 0 <= p < |n.next| && p != peer ==> m.next[p] == n.next[p])
    && (forall p :: 0 <= p < |n.matched| && p != peer ==> m.matched[p] == n.matched[p])
    && m == n.(next := m.next, matched := m.matched, commit := m.commit)
  }

  /** A refusal moves the peer's next index to the hint, if there is one, and nothing else. */
  lemma RefusalExact(n: Node, peer: nat, a: AppendArgs, r: AppendReply)
    requires NodeOk(n) && peer < n.size && n.role == Leader && r.term == n.term && !r.success
    ensures var m := HandleAppend(n, peer, a, r);
      && m.next[peer] == (if r.nextIndex == -100 then n.next[peer] else r.nextIndex)
      && m.matched[peer] == n.matched[peer] && m.commit == n.commit && MovesPeer(n, m, peer)
  {
    SameElsewhere(n.next, peer, r.nextIndex);
  }

  lemma SameElsewhere(s: seq<int>, peer: nat, i: int)
    requires peer < |s|
    ensures s[peer := s[peer]] == s
  {}

  /**
    A success raises what the peer is known to hold to the end of the request, never lowers it, and puts the
    next index behind it. The commit index moves to the greatest index that a majority is then known to hold
    and that is of the leader's own term and on its disk.
   */
  lemma AcceptanceExact(n: Node, peer: nat, a: AppendArgs, r: AppendReply)
    requires NodeOk(n) && peer < n.size && n.role == Leader && r.term == n.term && r.success
    ensures var m := HandleAppend(n, peer, a, r);
      var counted := m.(commit := n.commit);
      && m.matched[peer] == Max(n.matched[peer], a.prevIndex + |a.entries|) && m.next[peer] == m.matched[peer] + 1
      && MovesPeer(n, m, peer) && NodeOk(counted)
      && (m.commit == n.commit || R.MayCommit(counted, m.commit))
      && forall i :: R.MayCommit(counted, i) ==> i <= m.commit
  {
    var k := Max(n.matched[peer], a.prevIndex + |a.entries|);
    var counted := n.(matched := n.matched[peer := k], next := n.next[peer := k + 1]);
    R.AdvanceCommitExact(counted);
    hide AdvanceCommit, R.MayCommit;
    assert HandleAppend(n, peer, a, r).(commit := n.commit) == counted;
  }

  /** An answer of another term, or to a server that no longer leads: only a later term has an effect. */
  lemma AnswerElsewhere(n: Node, peer: nat, a: AppendArgs, r: AppendReply)
    requires NodeOk(n) && peer < n.size && (r.term != n.term || n.role != Leader)
    ensures r.term > n.term ==> Follows(n, HandleAppend(n, peer, a, r), r.term)
    ensures r.term <= n.term ==> HandleAppend(n, peer, a, r) == n
  {}

  /**
    The answer to a sent snapshot, if the leader still leads the term it was sent in: the peer's indices go
    to the snapshot, up or down, or a later term is adopted.
   */
  lemma SnapshotAnswerExact(n: Node, peer: nat, s: SnapshotArgs, t: int)
    requires NodeOk(n) && peer < n.size
    ensures var m := HandleSnapshot(n, peer, s, t);
      if n.role != Leader || s.term != n.term then m == n
      else if t > n.term then Follows(n, m, t)
      else m.matched[peer] == s.lastIndex && m.next[peer] == s.lastIndex + 1 && m.commit == n.commit && MovesPeer(n, m, peer)
  {}

  /** A leader puts a command behind its log, under its term and the next index; nobody else does. */
  lemma StartExact(n: Node, command: string)
    requires NodeOk(n)
    ensures var m := StartCommand(n, command);
      && |m.log| == |n.log| + (if n.role == Leader then 1 else 0) && n.log <= m.log && m == n.(log := m.log)
      && (n.role == Leader ==> m.log[|n.log|] == Entry(command, n.term, n.snapIndex + |n.log| + 1))
  {}

  // ------------------------------------------------------------------ AppendEntries

  /** The follower has the previous entry of the request, as far as index and term tell. */
  predicate Connects(n: Node, a: AppendArgs) {
    Holds(n, a.prevIndex) && TermAt(n, a.prevIndex) == a.prevTerm
  }

  /** Where a refused request is told to start: behind the log or the snapshot, or at a run of another term. */
  ghost predicate HintFits(n: Node, a: AppendArgs, hint: int)
    requires NodeOk(n)
  {
    if a.prevIndex > n.snapIndex + |n.log| then hint == n.snapIndex + |n.log| + 1
    else if a.prevIndex <= n.snapIndex then hint == n.snapIndex + 1
    else R.RunStart(n, hint, a.prevIndex, TermAt(n, a.prevIndex))
  }

  /**
    The first half: a request of an old term is refused without a hint and changes nothing. Any other makes
    the server a follower of its term; it is refused, with the hint, exactly if it does not connect.
   */
  lemma ReceiveExact(n: Node, a: AppendArgs)
    requires NodeOk(n)
    ensures var o := ReceiveAppend(n, a);
      if a.term < n.term then o == Answered(n, AppendReply(n.term, false, -100)) else
      && (o.Answered? <==> !Connects(n, a))
      && (o.Answered? ==> !o.reply.success && o.reply.term == a.term && HintFits(n, a, o.reply.nextIndex))
      && (o.Exited? <==> Connects(n, a) && exists e <- a.entries :: Clashes(n, e))
      && (!o.Exited? ==> Follows(n, o.node, a.term))
      && (o.Paused? ==> o.writes == Writes(n, a.entries))
  {
    if a.term >= n.term {
      var m := BecomeFollower(n, a.term);
      SameLog(n, m, a.entries);
      if n.snapIndex < a.prevIndex <= n.snapIndex + |n.log| {
        R.BackOffIsRunStart(m, a.prevIndex);
      } else if a.prevIndex == n.snapIndex {
        assert BackOff(m, m.snapIndex - 1, m.snapTerm) == m.snapIndex + 1;
      }
    }
  }

  /** An entry clashes exactly with one of its index and term, but another command. */
  lemma ClashExact(n: Node, e: Entry)
    requires NodeOk(n)
    ensures Clashes(n, e) <==> exists d <- n.log :: d.index == e.index && d.term == e.term && d.command != e.command
  {
    if Clashes(n, e) {
      assert n.log[e.index - n.snapIndex - 1] in n.log;
    }
  }

  /** Reading the log does not depend on term, vote and role. */
  lemma {:induction false} SameLog(n: Node, m: Node, es: seq<Entry>)
    requires NodeOk(n) && m == n.(term := m.term, vote := m.vote, role := m.role)
    ensures Writes(m, es) == Writes(n, es)
    ensures forall e :: Clashes(m, e) <==> Clashes(n, e)
    ensures forall j :: Holds(n, j) ==> TermAt(m, j) == TermAt(n, j)
    decreases es
  {
    if es != [] {
      SameLog(n, m, es[1..]);
    }
  }

  /** The entry is behind the snapshot, and the log does not have it with this term. */
  predicate Lacks(n: Node, e: Entry)
    requires NodeOk(n)
  {
    e.index > n.snapIndex && (e.index > n.snapIndex + |n.log| || TermAt(n, e.index) != e.term)
  }

  /** Where a write goes: behind the log, or into the slot of its index. */
  predicate Placed(n: Node, w: Write)
    requires NodeOk(n)
  {
    if w.entry.index > n.snapIndex + |n.log| then w.append else !w.append && w.slot == w.entry.index - n.snapIndex - 1
  }

  /** How the writes of a request begin. */
  lemma WritesHead(n: Node, es: seq<Entry>)
    requires NodeOk(n) && es != []
    ensures var ws, rest := Writes(n, es), Writes(n, es[1..]);
      if Lacks(n, es[0]) then |ws| > 0 && ws[1..] == rest && ws[0].entry == es[0] && Placed(n, ws[0]) else ws == rest
  {}

  lemma {:induction false} WritesRise(n: Node, es: seq<Entry>, base: int)
    requires NodeOk(n) && Numbered(es, base)
    ensures var ws := Writes(n, es);
      (forall w <- ws :: w.entry in es && Lacks(n, w.entry) && Placed(n, w) && w.entry.index > base) && Rise(ws)
    decreases es
  {
    if es != [] {
      WritesHead(n, es);
      NumberedRest(es, base);
      WritesRise(n, es[1..], base + 1);
      hide NodeOk, Numbered, Writes, Lacks, Placed, Rise;
      var ws, rest := Writes(n, es), Writes(n, es[1..]);
      assert forall w <- rest :: w.entry in es;
      if Lacks(n, es[0]) {
        assert ws == [ws[0]] + rest;
        RiseHead(ws[0], rest);
      }
    }
  }

  predicate Rise(ws: seq<Write>) {
    forall j, k :: 0 <= j < k < |ws| ==> ws[j].entry.index < ws[k].entry.index
  }

  lemma RiseHead(w: Write, rest: seq<Write>)
    requires Rise(rest) && forall v <- rest :: v.entry.index > w.entry.index
    ensures Rise([w] + rest)
  {}

  lemma NumberedRest(es: seq<Entry>, base: int)
    requires Numbered(es, base) && es != []
    ensures Numbered(es[1..], base + 1) && es[0].index == base + 1 && es[0] in es
  {}

  lemma {:induction false} WritesAll(n: Node, es: seq<Entry>, e: Entry)
    requires NodeOk(n) && e in es && Lacks(n, e)
    ensures exists w <- Writes(n, es) :: w.entry == e
    decreases es
  {
    WritesHead(n, es);
    hide NodeOk, Writes, Lacks, Placed;
    var ws, rest := Writes(n, es), Writes(n, es[1..]);
    if e == es[0] {
      assert ws[0] in ws;
    } else {
      assert e in es[1..];
      WritesAll(n, es[1..], e);
      var w :| w in rest && w.entry == e;
      assert w in ws;
    }
  }

  /** The decided writes of consecutive entries are exactly those the log lacks, in order, each in its place. */
  lemma WritesExact(n: Node, es: seq<Entry>, base: int)
    requires NodeOk(n) && Numbered(es, base)
    ensures var ws := Writes(n, es);
      && (forall w <- ws :: w.entry in es && Lacks(n, w.entry) && Placed(n, w))
      && (forall e <- es :: Lacks(n, e) ==> exists w <- ws :: w.entry == e)
      && (forall j, k :: 0 <= j < k < |ws| ==> ws[j].entry.index < ws[k].entry.index)
  {
    WritesRise(n, es, base);
    forall e <- es | Lacks(n, e) ensures exists w <- Writes(n, es) :: w.entry == e {
      WritesAll(n, es, e);
    }
  }

  /** Where the log ends before write k is made, appended entries included. */
  function EndBefore(n: Node, ws: seq<Write>, end: int, k: nat): int
    requires k <= |ws|
  {
    if k == 0 then end
    else if ws[k - 1].append && ws[k - 1].entry.index > n.snapIndex then ws[k - 1].entry.index
    else EndBefore(n, ws, end, k - 1)
  }

  /** Write k can be made: a snapshot covers it, it is next behind the log, or its slot still has its index. */
  predicate FitsAt(n: Node, ws: seq<Write>, end: int, k: nat)
    requires k < |ws|
  {
    var w := ws[k];
    || w.entry.index <= n.snapIndex
    || (w.append && w.entry.index == EndBefore(n, ws, end, k) + 1)
    || (!w.append && 0 <= w.slot < |n.log| && n.log[w.slot].index == w.entry.index)
  }

  /** Write k is the first that does not fit, and the hint says where the log ends. */
  predicate FirstMisfit(n: Node, ws: seq<Write>, end: int, k: nat, hint: int) {
    && k < |ws| && !FitsAt(n, ws, end, k) && (forall j: nat :: j < k ==> FitsAt(n, ws, end, j))
    && hint == (if ws[k].append then EndBefore(n, ws, end, k) else n.snapIndex + |n.log|) + 1
  }

  /** Some write does not fit, and the hint is that of the first such. */
  ghost predicate SomeMisfit(n: Node, ws: seq<Write>, end: int, hint: int) {
    exists k: nat :: FirstMisfit(n, ws, end, k, hint)
  }

  predicate AllFit(n: Node, ws: seq<Write>, end: int) {
    forall k: nat :: k < |ws| ==> FitsAt(n, ws, end, k)
  }

  lemma {:induction false} EndLater(n: Node, ws: seq<Write>, end: int, k: nat)
    requires 0 < k <= |ws|
    ensures EndBefore(n, ws, end, k) == EndBefore(n, ws[1..], EndBefore(n, ws, end, 1), k - 1)
  {
    if k > 1 {
      EndLater(n, ws, end, k - 1);
      assert ws[1..][k - 2] == ws[k - 1];
    }
  }

  lemma FitsLater(n: Node, ws: seq<Write>, end: int, k: nat)
    requires 0 < k < |ws|
    ensures FitsAt(n, ws, end, k) <==> FitsAt(n, ws[1..], EndBefore(n, ws, end, 1), k - 1)
  {
    EndLater(n, ws, end, k);
    assert ws[1..][k - 1] == ws[k];
  }

  /** The writes fit exactly if each of them does behind the ones before it; otherwise the first one that does not tells. */
  lemma {:induction false} CheckExact(n: Node, ws: seq<Write>, end: int)
    requires NodeOk(n)
    ensures match Check(n, ws, end)
      case Fits => AllFit(n, ws, end)
      case Misfit(hint) => SomeMisfit(n, ws, end, hint) && !AllFit(n, ws, end)
    decreases ws
  {
    assert LastIndex(n) == n.snapIndex + |n.log|;
    hide NodeOk;
    if ws == [] {
    } else if !FitsAt(n, ws, end, 0) {
      assert Check(n, ws, end).Misfit? && FirstMisfit(n, ws, end, 0, Check(n, ws, end).hint);
    } else {
      var rest, end' := ws[1..], EndBefore(n, ws, end, 1);
      assert end' == if ws[0].append && ws[0].entry.index > n.snapIndex then ws[0].entry.index else EndBefore(n, ws, end, 0);
      assert Check(n, ws, end) == Check(n, rest, end');
      CheckExact(n, rest, end');
      forall k: nat | 0 < k < |ws| ensures FitsAt(n, ws, end, k) <==> FitsAt(n, rest, end', k - 1) {
        FitsLater(n, ws, end, k);
      }
      if Check(n, rest, end').Misfit? {
        var hint := Check(n, rest, end').hint;
        var k: nat :| FirstMisfit(n, rest, end', k, hint);
        EndLater(n, ws, end, k + 1);
        assert FirstMisfit(n, ws, end, k + 1, hint);
      }
    }
  }

  /**
    The second half succeeds exactly if the writes have reached the disk, the term is still that of the
    request, the request still connects, and the writes still fit. Otherwise nothing has changed, and the
    answer says where to start if the term is still the same.
   */
  lemma FinishExact(mode: Mode, n: Node, a: AppendArgs, ws: seq<Write>, synced: bool)
    requires NodeOk(n)
    ensures var (m, r) := ResumeAppend(mode, n, a, ws, synced);
      var end, last := n.snapIndex + |n.log|, LastIndex(n.(log := Apply(mode, n.log, n.snapIndex, ws)));
      var current := (synced || ws == []) && n.term == a.term;
      && r.term == n.term
      && (r.success <==> current && Connects(n, a) && AllFit(n, ws, end))
      && (!r.success ==> m == n)
      && (!current || r.success ==> r.nextIndex == -100)
      && (current && !Connects(n, a) ==>
            r.nextIndex == if a.prevIndex > end then end + 1 else n.snapIndex + 1)
      && (current && Connects(n, a) && !r.success ==> SomeMisfit(n, ws, end, r.nextIndex))
      && (r.success ==>
            && m.log == Apply(mode, n.log, n.snapIndex, ws)
            && m.commit == (if a.leaderCommit > n.commit then Min(a.leaderCommit, last) else n.commit)
            && m.stable == (if mode == Intended then last else Max(n.stable, last))
            && m == n.(log := m.log, commit := m.commit, stable := m.stable))
  {
    CheckExact(n, ws, n.snapIndex + |n.log|);
    assert LastIndex(n) == n.snapIndex + |n.log|;
    hide Check, AllFit, SomeMisfit, Apply;
  }

  // ------------------------------------------------------------------ snapshots

  /**
    Taking a snapshot of everything up to a committed index: these entries move from the log to the
    snapshot, and the applied index does not stay behind it. Any other index changes nothing.
   */
  lemma TakeExact(n: Node, index: int)
    requires NodeOk(n)
    ensures var m := TakeSnapshot(n, index);
      if n.snapIndex < index <= n.commit then
        && m.snapIndex == index && m.snapTerm == TermAt(n, index)
        && |m.log| == n.snapIndex + |n.log| - index
        && (forall k :: 0 <= k < |m.log| ==> m.log[k] == n.log[index - n.snapIndex + k])
        && |m.snapData| == |n.snapData| + (index - n.snapIndex)
        && m.snapData + m.log == n.snapData + n.log
        && m.applied == Max(n.applied, index)
        && m == n.(snapIndex := index, snapTerm := m.snapTerm, snapData := m.snapData, log := m.log, applied := m.applied)
      else m == n
  {
    if n.snapIndex < index <= n.commit {
      var k := index - n.snapIndex;
      assert n.log[..k] + n.log[k..] == n.log;
      assert (n.snapData + n.log[..k]) + n.log[k..] == n.snapData + (n.log[..k] + n.log[k..]);
    }
  }

  /** What the snapshot leaves keeps its index and its term. */
  lemma TakenTerms(n: Node, index: int, i: int)
    requires NodeOk(n) && n.snapIndex < index <= n.commit && index <= i <= n.snapIndex + |n.log|
    ensures var m := TakeSnapshot(n, index); NodeOk(m) && Holds(m, i) && TermAt(m, i) == TermAt(n, i)
  {
    R.TakeSteady(n, index);
  }

  /**
    Installing a snapshot newer than the server's own: the log keeps what lies behind the snapshot, as
    repaired only if the log agrees with the snapshot's last term, and commit and applied index do not stay
    behind it. A snapshot of an old term changes nothing, an older one only the term and role.
   */
  lemma InstallFields(mode: Mode, n: Node, s: SnapshotArgs)
    requires NodeOk(n)
    ensures var m := InstallSnapshot(mode, n, s);
      if s.term < n.term then m == n
      else if s.lastIndex <= n.snapIndex then Follows(n, m, s.term)
      else
        var keeps := s.lastIndex < n.snapIndex + |n.log| && (mode == AsWritten || TermAt(n, s.lastIndex) == s.lastTerm);
        && m.snapIndex == s.lastIndex && m.snapTerm == s.lastTerm && m.snapData == s.data
        && |m.log| == (if keeps then n.snapIndex + |n.log| - s.lastIndex else 0)
        && (forall k :: 0 <= k < |m.log| ==> m.log[k] == n.log[s.lastIndex - n.snapIndex + k])
        && m.commit == Max(n.commit, s.lastIndex) && m.applied == Max(n.applied, s.lastIndex)
        && (mode == AsWritten ==> m.stable == Max(n.stable, s.lastIndex))
        && (mode == Intended ==> m.stable == Min(Max(n.stable, s.lastIndex), s.lastIndex + |m.log|))
        && Follows(n, m.(log := n.log, snapIndex := n.snapIndex, snapTerm := n.snapTerm, snapData := n.snapData,
                         commit := n.commit, stable := n.stable, applied := n.applied), s.term)
  {}
}
