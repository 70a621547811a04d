/**
  The server itself: an object whose fields the handlers of src/raft/raft.cc update in place, with
  their counting, scanning and copying loops. Every method is proved to take the object from one state
  to the next exactly as the functions of RaftNode say, for the handlers as written.
 */
module RaftServer {
  import opened RaftTypes
  import opened RaftNode
  import R = RaftIndices

  datatype Begun = Replied(reply: AppendReply) | Exits | Waits(writes: seq<Write>)

  /** A whole round of heartbeats: one peer after the other, until one stops the process. */
  ghost function Round(n: Node, p: nat): (Node, seq<Beat>)
    requires NodeOk(n) && p <= n.size
    decreases n.size - p
  {
    if p == n.size then (n, []) else
    var (m, b) := Heartbeat(AsWritten, n, p);
    if Stops(b) then (m, [b]) else
    R.LeaderSteady(n, p, "", 0);
    BeatKeepsSize(n, p);
    var (r, bs) := Round(m, p + 1);
    (r, [b] + bs)
  }

  lemma BeatKeepsSize(n: Node, p: nat)
    requires NodeOk(n) && p < n.size
    ensures Heartbeat(AsWritten, n, p).0.size == n.size
  {}

  /** Up to the one that stops the process, if there is one, a turn changes nothing that later turns look at. */
  lemma {:induction false} RoundFrom(n: Node, p: nat)
    requires NodeOk(n) && p <= n.size
    ensures var bs := Round(n, p).1;
      && |bs| <= n.size - p
      && (forall q :: 0 <= q < |bs| ==> bs[q] == Heartbeat(AsWritten, n, p + q).1)
      && (forall q :: 0 <= q < |bs| - 1 ==> !Stops(bs[q]))
      && (|bs| < n.size - p ==> bs != [] && Stops(bs[|bs| - 1]))
    ensures (forall q: nat :: p <= q < n.size ==> !Stops(Heartbeat(AsWritten, n, q).1)) ==> Round(n, p).0 == n
    decreases n.size - p
  {
    if p < n.size {
      var (m, b) := Heartbeat(AsWritten, n, p);
      if !Stops(b) {
        TurnChangesNothing(n, p);
        RoundFrom(n, p + 1);
        hide Heartbeat;
        var bs, rest := Round(n, p).1, Round(n, p + 1).1;
        assert bs == [b] + rest;
        forall q | 0 <= q < |bs| ensures bs[q] == Heartbeat(AsWritten, n, p + q).1 {
          assert q > 0 ==> bs[q] == rest[q - 1];
        }
      }
    }
  }

  lemma TurnChangesNothing(n: Node, p: nat)
    requires NodeOk(n) && p < n.size
    ensures !Stops(Heartbeat(AsWritten, n, p).1) ==> Heartbeat(AsWritten, n, p).0 == n
  {}

  /** A round gives every peer its turn, with what the server is at its start, unless one of them stops the process. */
  lemma RoundExact(n: Node)
    requires NodeOk(n)
    ensures var bs := Round(n, 0).1;
      && |bs| <= n.size && (forall q :: 0 <= q < |bs| ==> bs[q] == Heartbeat(AsWritten, n, q).1)
      && (|bs| == n.size <==> forall q :: 0 <= q < n.size - 1 ==> !Stops(Heartbeat(AsWritten, n, q).1))
      && ((forall q :: 0 <= q < n.size ==> !Stops(Heartbeat(AsWritten, n, q).1)) ==> Round(n, 0).0 == n)
  {
    hide Heartbeat;
    RoundFrom(n, 0);
    var bs := Round(n, 0).1;
    if |bs| < n.size {
      assert Stops(bs[|bs| - 1]);
    }
  }

  /** The state of a server that installs a snapshot newer than its own. */
  lemma InstalledNode(n: Node, s: SnapshotArgs)
    requires NodeOk(n)
    ensures s.term < n.term ==> InstallSnapshot(AsWritten, n, s) == n
    ensures s.term >= n.term && s.lastIndex <= n.snapIndex ==>
      InstallSnapshot(AsWritten, n, s) == BecomeFollower(n, s.term)
    ensures s.term >= n.term && s.lastIndex > n.snapIndex ==>
      InstallSnapshot(AsWritten, n, s) == BecomeFollower(n, s.term).(
        log := if LastIndex(n) > s.lastIndex then n.log[s.lastIndex - n.snapIndex..] else [],
        commit := Max(n.commit, s.lastIndex), stable := Max(n.stable, s.lastIndex), applied := Max(n.applied, s.lastIndex),
        snapIndex := s.lastIndex, snapTerm := s.lastTerm, snapData := s.data)
  {}

  lemma EndIndex(n: Node)
    requires NodeOk(n)
    ensures LastIndex(n) == n.snapIndex + |n.log|
  {}

  /** The entries of a log that starts behind base, from index + 1 to last, one by one. */
  method CopyBehind(log: seq<Entry>, base: int, index: int, last: int) returns (rest: seq<Entry>)
    requires base <= index <= last == base + |log|
    ensures rest == log[index - base..]
  {
    rest := [];
    var i := index + 1;
    while i <= last
      invariant index + 1 <= i <= last + 1
      invariant rest == log[index - base..i - 1 - base]
      decreases last - i
    {
      rest := rest + [log[i - base - 1]];
      i := i + 1;
    }
  }

  class Server {
    const id: nat
    const size: nat
    var term: int
    var vote: int
    var role: Role
    var log: seq<Entry>
    var snapIndex: int
    var snapTerm: int
    var snapData: seq<Entry>
    var commit: int
    var stable: int
    var applied: int
    const next: array<int>
    const matched: array<int>
    var votes: int
    ghost var granters: set<nat>
    ghost var awaiting: set<nat>

    ghost function State(): Node
      reads this, next, matched
    {
      Node(id, size, term, vote, role, log, snapIndex, snapTerm, snapData, commit, stable, applied,
           next[..], matched[..], votes, granters, awaiting)
    }

    ghost predicate Valid()
      reads this, next, matched
    {
      next != matched && next.Length == size && matched.Length == size && NodeOk(State())
    }

    /** A server on its first start, with nothing persisted. */
    constructor (i: nat, n: nat)
      requires i < n
      ensures Valid() && fresh(next) && fresh(matched)
      ensures State() == Node(i, n, 0, 0, Follower, [], 0, 0, [], 0, 0, 0, seq(n, _ => 0), seq(n, _ => 0), 0, {}, {})
    {
      id, size := i, n;
      term, vote, role := 0, 0, Follower;
      log, snapIndex, snapTerm, snapData := [], 0, 0, [];
      commit, stable, applied := 0, 0, 0;
      next := new int[n](_ => 0);
      matched := new int[n](_ => 0);
      votes, granters, awaiting := 0, {}, {};
      new;
      assert next[..] == seq(n, _ => 0) && matched[..] == seq(n, _ => 0);
    }

    method LastLog() returns (index: int, lastTerm: int)
      requires Valid()
      ensures index == LastIndex(State()) == snapIndex + |log| && lastTerm == LastTerm(State())
    {
      EndIndex(State());
      if log == [] {
        index, lastTerm := snapIndex, snapTerm;
      } else {
        index, lastTerm := log[|log| - 1].index, log[|log| - 1].term;
      }
    }

    method Follow(t: int)
      requires Valid()
      modifies this
      ensures Valid() && State() == BecomeFollower(old(State()), t)
    {
      if t > term {
        vote := -1;
      }
      term, role := t, Follower;
    }

    // ---------------------------------------------------------------- elections

    method DoElection() returns (request: VoteArgs)
      requires Valid()
      modifies this
      ensures Valid() && State() == StartElection(old(State()))
      ensures old(role) != Leader ==> request == VoteRequest(State())
    {
      var index, lastTerm := LastLog();
      if role != Leader {
        role, term, vote := Candidate, term + 1, id;
        votes, granters, awaiting := 1, {}, Peers(State());
      }
      request := VoteArgs(term, id, index, lastTerm);
    }

    method RequestVote(a: VoteArgs) returns (r: VoteReply)
      requires Valid()
      modifies this
      ensures Valid() && (State(), r) == ReceiveVote(old(State()), a)
    {
      if a.term < term {
        return VoteReply(term, false);
      }
      if a.term > term {
        Follow(a.term);
      }
      var index, lastTerm := LastLog();
      if !(a.lastTerm > lastTerm || (a.lastTerm == lastTerm && a.lastIndex >= index)) {
        return VoteReply(term, false);
      }
      if vote != -1 && vote != a.candidate {
        return VoteReply(term, false);
      }
      vote := a.candidate;
      r := VoteReply(term, true);
    }

    /** The callback of one vote request; the call table runs it at most once. */
    method HandleRequestVoteResponse(peer: nat, a: VoteArgs, r: VoteReply)
      requires Valid()
      modifies this, next, matched
      ensures Valid() && State() == HandleVote(old(State()), peer, a, r)
    {
      if r.term > term {
        Follow(r.term);
        return;
      }
      if r.term < term || role != Candidate || a.term != term || !r.granted {
        return;
      }
      votes := votes + 1;
      granters := granters + {peer};
      if votes >= size / 2 + 1 {
        BecomeLeader();
      }
    }

    /** Every peer is taken to lack everything behind the leader's log, and to hold nothing for sure. */
    method BecomeLeader()
      requires Valid()
      modifies this`role, next, matched
      ensures Valid()
      ensures State() == old(State()).(role := Leader, next := FreshNext(old(State())), matched := FreshMatched(old(State())))
    {
      ghost var n := State();
      role := Leader;
      var index, _ := LastLog();
      for i := 0 to size
        invariant role == Leader
        invariant forall p :: 0 <= p < size ==> next[p] == if p < i && p != id then index + 1 else n.next[p]
        invariant forall p :: 0 <= p < size ==> matched[p] == if p < i && p != id then 0 else n.matched[p]
      {
        if i != id {
          next[i] := index + 1;
          matched[i] := 0;
        }
      }
      assert next[..] == FreshNext(n) && matched[..] == FreshMatched(n);
    }

    // ---------------------------------------------------------------- the leader

    method AdvanceCommitIndex()
      requires Valid()
      modifies this`commit
      ensures Valid() && State() == AdvanceCommit(old(State()))
    {
      var last, _ := LastLog();
      ghost var n := State();
      R.AdvanceCommitExact(n);
      var index := if last < stable then last else stable;
      while index > commit
        invariant commit - 1 <= index <= last && State() == n
        invariant index >= commit ==> CommitScan(n, index) == CommitScan(n, Min(last, stable))
        invariant index < commit ==> CommitScan(n, Min(last, stable)) == commit
        decreases index - commit
      {
        var replicated := 1;
        for peer := 0 to size
          invariant replicated == Replicas(n, index, peer)
        {
          if peer != id && matched[peer] >= index {
            replicated := replicated + 1;
          }
        }
        if replicated >= size / 2 + 1 && log[index - snapIndex - 1].term == term {
          commit := index;
          return;
        }
        index := index - 1;
      }
    }

    method HandleAppendEntries(peer: nat, a: AppendArgs, r: AppendReply)
      requires Valid() && peer < size
      modifies this, next, matched
      ensures Valid() && State() == HandleAppend(old(State()), peer, a, r)
    {
      ghost var n := State();
      if r.term > term {
        Follow(r.term);
        return;
      }
      if r.term < term || role != Leader {
        return;
      }
      if !r.success {
        if r.nextIndex != NO_HINT {
          next[peer] := r.nextIndex;
          assert next[..] == n.next[peer := r.nextIndex];
        }
        return;
      }
      if matched[peer] < a.prevIndex + |a.entries| {
        matched[peer] := a.prevIndex + |a.entries|;
      }
      next[peer] := matched[peer] + 1;
      assert matched[..] == n.matched[peer := Max(n.matched[peer], a.prevIndex + |a.entries|)];
      assert next[..] == n.next[peer := matched[peer] + 1];
      AdvanceCommitIndex();
    }

    method Start(command: string) returns (index: int, t: int, isLeader: bool)
      requires Valid()
      modifies this`log
      ensures Valid() && State() == StartCommand(old(State()), command)
      ensures isLeader == (role == Leader) && (isLeader ==> t == term)
      ensures isLeader ==> log == old(log) + [Entry(command, t, index)] && index == LastIndex(old(State())) + 1
    {
      if role != Leader {
        return -1, -1, false;
      }
      var last, _ := LastLog();
      log := log + [Entry(command, term, last + 1)];
      return last + 1, term, true;
    }

    method OnLogStable(ok: bool, i: int)
      requires Valid()
      modifies this
      ensures Valid()
      ensures State() == if ok then LogStable(old(State()), i) else LogFailed(old(State()), i)
    {
      if !ok {
        if i > commit && i > snapIndex {
          var offset := i - snapIndex - 1;
          if 0 <= offset < |log| && log[offset].index == i {
            log := log[..offset];
          }
        }
        return;
      }
      if i > stable {
        stable := i;
      }
    }

    /** doHeartBeat's turn of one peer */
    method HeartbeatTo(p: nat) returns (b: Beat)
      requires Valid() && p < size
      modifies next
      ensures Valid() && (State(), b) == Heartbeat(AsWritten, old(State()), p)
    {
      ghost var n := State();
      if role != Leader || p == id {
        return Silent;
      }
      if next[p] < 1 {
        return Abort;
      }
      if next[p] <= snapIndex {
        return Lagging;
      }
      var prev := next[p] - 1;
      if prev > snapIndex + |log| {
        return OutOfRange;
      }
      var prevTerm := if prev == snapIndex then snapTerm else log[prev - snapIndex - 1].term;
      if prev > stable {
        next[p] := stable + 1;
        assert next[..] == n.next[p := stable + 1];
        // the request keeps the index from before the clamp, so it cannot end at the stable index
        return Abort;
      }
      var entries := StableFrom(prev);
      if prev + |entries| != stable {
        return Abort;
      }
      b := Send(AppendArgs(term, id, prev, prevTerm, entries, commit));
    }

    /** The entries behind prev, up to the stable index. */
    method StableFrom(prev: int) returns (entries: seq<Entry>)
      requires Valid() && snapIndex <= prev <= snapIndex + |log| && prev <= stable
      ensures entries == log[prev - snapIndex..Min(stable, LastIndex(State())) - snapIndex]
    {
      entries := [];
      var j := prev - snapIndex;
      while j < |log| && log[j].index <= stable
        invariant prev - snapIndex <= j <= Min(stable, LastIndex(State())) - snapIndex
        invariant entries == log[prev - snapIndex..j]
        decreases |log| - j
      {
        entries := entries + [log[j]];
        j := j + 1;
      }
    }

    method DoHeartBeat() returns (beats: seq<Beat>)
      requires Valid()
      modifies next
      ensures Valid() && (State(), beats) == Round(old(State()), 0)
    {
      ghost var n := State();
      beats := [];
      var p := 0;
      assert [] + Round(n, 0).1 == Round(n, 0).1;
      while p < size
        invariant Valid() && p <= size
        invariant Round(n, 0).0 == Round(State(), p).0
        invariant Round(n, 0).1 == beats + Round(State(), p).1
        decreases size - p
      {
        ghost var m, before := State(), beats;
        var b := HeartbeatTo(p);
        beats := beats + [b];
        assert before + Round(m, p).1 == beats + Round(m, p).1[1..];
        if Stops(b) {
          return;
        }
        assert Round(m, p).1[1..] == Round(State(), p + 1).1;
        p := p + 1;
      }
      assert beats + [] == beats;
    }

    // ---------------------------------------------------------------- the follower

    /** The start of the run of the conflicting term, or the index behind the snapshot. */
    method ConflictStart(prev: int) returns (hint: int)
      requires Valid() && snapIndex <= prev <= snapIndex + |log|
      ensures hint == BackOff(State(), prev, TermAt(State(), prev))
    {
      ghost var n := State();
      var conflict := if prev == snapIndex then snapTerm else log[prev - snapIndex - 1].term;
      var index := prev;
      while index >= snapIndex
        invariant snapIndex - 1 <= index <= prev
        invariant BackOff(n, index, conflict) == BackOff(n, prev, conflict)
        decreases index - snapIndex
      {
        var here := if index == snapIndex then snapTerm else log[index - snapIndex - 1].term;
        if here != conflict {
          return index + 1;
        }
        index := index - 1;
      }
      hint := snapIndex + 1;
    }

    /** The writes for the entries of a request, or none because one of them clashes. */
    method DecideWrites(es: seq<Entry>) returns (clash: bool, writes: seq<Write>)
      requires Valid()
      ensures clash <==> exists e <- es :: Clashes(State(), e)
      ensures !clash ==> writes == Writes(State(), es)
    {
      ghost var n := State();
      var last, _ := LastLog();
      clash, writes := false, [];
      for i := 0 to |es|
        invariant Writes(n, es) == writes + Writes(n, es[i..])
        invariant forall k :: 0 <= k < i ==> !Clashes(n, es[k])
      {
        var e := es[i];
        assert es[i..][0] == e && es[i..][1..] == es[i + 1..];
        if e.index > snapIndex {
          if e.index > last {
            writes := writes + [Write(-1, true, e)];
          } else {
            var slot := e.index - snapIndex - 1;
            if log[slot].term == e.term && log[slot].command != e.command {
              assert Clashes(n, e);
              return true, [];
            }
            if log[slot].term != e.term {
              writes := writes + [Write(slot, false, e)];
            }
          }
        }
      }
      assert writes + [] == writes;
    }

    /** AppendEntries until it releases the lock. */
    method BeginAppendEntries(a: AppendArgs) returns (b: Begun)
      requires Valid()
      modifies this
      ensures Valid()
      ensures match ReceiveAppend(old(State()), a)
        case Answered(n, r) => State() == n && b == Replied(r)
        case Exited => b == Exits
        case Paused(n, ws) => State() == n && b == Waits(ws)
    {
      if a.term < term {
        return Replied(AppendReply(term, false, NO_HINT));
      }
      Follow(a.term);
      var last, _ := LastLog();
      if a.prevIndex > last {
        return Replied(AppendReply(term, false, last + 1));
      }
      if a.prevIndex < snapIndex {
        return Replied(AppendReply(term, false, snapIndex + 1));
      }
      var here := if a.prevIndex == snapIndex then snapTerm else log[a.prevIndex - snapIndex - 1].term;
      if here != a.prevTerm {
        var hint := ConflictStart(a.prevIndex);
        return Replied(AppendReply(term, false, hint));
      }
      var clash, writes := DecideWrites(a.entries);
      b := if clash then Exits else Waits(writes);
    }

    method CheckWrites(ws: seq<Write>) returns (v: Verdict)
      requires Valid()
      ensures v == Check(State(), ws, LastIndex(State()))
    {
      ghost var n := State();
      var last, _ := LastLog();
      var end := last;
      for i := 0 to |ws|
        invariant Check(n, ws, LastIndex(n)) == Check(n, ws[i..], last)
      {
        var w := ws[i];
        assert ws[i..][0] == w && ws[i..][1..] == ws[i + 1..];
        if w.entry.index > snapIndex {
          if w.append {
            if w.entry.index != last + 1 {
              return Misfit(last + 1);
            }
            last := w.entry.index;
          } else if w.slot < 0 || w.slot >= |log| || log[w.slot].index != w.entry.index {
            return Misfit(end + 1);
          }
        }
      }
      v := Fits;
    }

    method ApplyWrites(ws: seq<Write>)
      requires Valid() && Check(State(), ws, LastIndex(State())).Fits?
      modifies this`log
      ensures log == Apply(AsWritten, old(log), snapIndex, ws)
    {
      ghost var was := log;
      for i := 0 to |ws|
        invariant Apply(AsWritten, was, snapIndex, ws) == Apply(AsWritten, log, snapIndex, ws[i..])
      {
        var w := ws[i];
        assert ws[i..][0] == w && ws[i..][1..] == ws[i + 1..];
        if w.entry.index > snapIndex {
          if w.append {
            log := log + [w.entry];
          } else if 0 <= w.slot < |log| {
            log := log[w.slot := w.entry];
          }
        }
      }
    }

    /** AppendEntries from the re-acquisition of the lock. */
    method FinishAppendEntries(a: AppendArgs, ws: seq<Write>, synced: bool) returns (r: AppendReply)
      requires Valid()
      modifies this
      ensures Valid() && (State(), r) == ResumeAppend(AsWritten, old(State()), a, ws, synced)
    {
      ghost var n := State();
      if !(synced || ws == []) || term != a.term {
        return AppendReply(term, false, NO_HINT);
      }
      var last, _ := LastLog();
      if a.prevIndex > last {
        return AppendReply(term, false, last + 1);
      }
      if a.prevIndex < snapIndex {
        return AppendReply(term, false, snapIndex + 1);
      }
      var here := if a.prevIndex == snapIndex then snapTerm else log[a.prevIndex - snapIndex - 1].term;
      if here != a.prevTerm {
        return AppendReply(term, false, snapIndex + 1);
      }
      var v := CheckWrites(ws);
      if v.Misfit? {
        return AppendReply(term, false, v.hint);
      }
      TakeWrites(a, ws);
      r := AppendReply(term, true, NO_HINT);
    }

    /** The last part: the writes still fit, so they are made, and the commit index follows. */
    method TakeWrites(a: AppendArgs, ws: seq<Write>)
      requires Valid() && Check(State(), ws, LastIndex(State())).Fits?
      modifies this
      ensures Valid()
      ensures var n := old(State());
        var last := LastIndex(n.(log := Apply(AsWritten, n.log, n.snapIndex, ws)));
        State() == n.(log := Apply(AsWritten, n.log, n.snapIndex, ws), stable := Max(n.stable, last),
                      commit := if a.leaderCommit > n.commit then Min(a.leaderCommit, last) else n.commit)
    {
      R.CheckedApply(State(), ws, log);
      ApplyWrites(ws);
      var last := if log == [] then snapIndex else log[|log| - 1].index;
      if last > stable {
        stable := last;
      }
      if a.leaderCommit > commit {
        commit := if a.leaderCommit < last then a.leaderCommit else last;
      }
    }

    // ---------------------------------------------------------------- snapshots and application

    method SendSnapshot() returns (s: SnapshotArgs)
      requires Valid()
      ensures s == SnapshotRequest(State())
    {
      s := SnapshotArgs(term, id, snapIndex, snapTerm, snapData);
    }

    method HandleSnapshotReply(peer: nat, s: SnapshotArgs, replyTerm: int)
      requires Valid() && peer < size
      modifies this, next, matched
      ensures Valid() && State() == HandleSnapshot(old(State()), peer, s, replyTerm)
    {
      ghost var n := State();
      if role != Leader || term != s.term {
        return;
      }
      if replyTerm > term {
        Follow(replyTerm);
        return;
      }
      matched[peer] := s.lastIndex;
      next[peer] := matched[peer] + 1;
      assert matched[..] == n.matched[peer := s.lastIndex] && next[..] == n.next[peer := s.lastIndex + 1];
    }

    method InstallSnapshotRpc(s: SnapshotArgs) returns (replyTerm: int)
      requires Valid()
      modifies this
      ensures Valid() && State() == InstallSnapshot(AsWritten, old(State()), s) && replyTerm == term
    {
      ghost var n := State();
      R.InstallSteady(n, s);
      InstalledNode(n, s);
      hide InstallSnapshot, LastIndex, LastTerm, IndexOk, Numbered;
      if s.term < term {
        return term;
      }
      Follow(s.term);
      if s.lastIndex <= snapIndex {
        return term;
      }
      var last, _ := LastLog();
      if last > s.lastIndex {
        log := log[s.lastIndex - snapIndex - 1 + 1..];
      } else {
        log := [];
      }
      RaiseTo(s.lastIndex);
      snapIndex, snapTerm, snapData := s.lastIndex, s.lastTerm, s.data;
      replyTerm := term;
    }

    /** The state machine has a snapshot of everything up to index. */
    method Snapshot(index: int)
      requires Valid()
      modifies this
      ensures Valid() && State() == TakeSnapshot(old(State()), index)
    {
      if snapIndex >= index || index > commit {
        return;
      }
      var newTerm := log[index - snapIndex - 1].term;
      var rest := EntriesBehind(index);
      snapData := snapData + log[..index - snapIndex];
      log := rest;
      snapIndex, snapTerm := index, newTerm;
      RaiseTo(index);
    }

    /** Everything up to index is committed, on disk and applied. */
    method RaiseTo(index: int)
      modifies this`commit, this`stable, this`applied
      ensures commit == Max(old(commit), index) && stable == Max(old(stable), index)
      ensures applied == Max(old(applied), index)
    {
      commit := if commit < index then index else commit;
      stable := if stable < index then index else stable;
      applied := if applied < index then index else applied;
    }

    /** A copy of the log behind index. */
    method EntriesBehind(index: int) returns (rest: seq<Entry>)
      requires Valid() && snapIndex <= index <= snapIndex + |log|
      ensures rest == log[index - snapIndex..]
    {
      hide *;
      var last, _ := LastLog();
      rest := CopyBehind(log, snapIndex, index, last);
    }

    method Copy(start: int, end: int) returns (msgs: seq<ApplyMsg>)
      requires Valid() && snapIndex < start && end <= snapIndex + |log|
      ensures msgs == CopyLogs(State(), start, end)
    {
      ghost var n := State();
      msgs := [];
      var i := start;
      while i <= end
        invariant start <= i && (start <= end ==> i <= end + 1)
        invariant CopyLogs(n, start, end) == msgs + CopyLogs(n, i, end)
        decreases end - i
      {
        var msg := CommandMsg(i, log[i - snapIndex - 1].command);
        assert CopyLogs(n, i, end) == [msg] + CopyLogs(n, i + 1, end);
        assert msgs + ([msg] + CopyLogs(n, i + 1, end)) == (msgs + [msg]) + CopyLogs(n, i + 1, end);
        msgs := msgs + [msg];
        i := i + 1;
      }
      assert CopyLogs(n, i, end) == [];
    }

    /** One round of applierTicker. */
    method ApplierRound() returns (msgs: seq<ApplyMsg>)
      requires Valid()
      modifies this`applied
      ensures Valid() && (State(), msgs) == ApplyCommitted(old(State()))
    {
      msgs := [];
      if applied < commit {
        msgs := Copy(applied + 1, commit);
        applied := commit;
      }
    }
  }
}
