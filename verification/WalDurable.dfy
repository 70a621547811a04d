/**
  What the group commit of WalWriter promises, over every run and every choice of failing writes and
  syncs: a batch told true is on disk and survives any crash, no batch is answered twice, and the
  batches never answered are exactly those behind a failed write in its bulk.
 */
module WalDurable {
  import opened RaftTypes
  import opened WalCodec
  import opened WalWriter

  // ------------------------------------------------------------------ what is on disk

  function ClosedEntries(c: Codec, closed: seq<Segment>): seq<Entry>
    decreases |closed|
  {
    if closed == [] then []
    else ClosedEntries(c, closed[..|closed| - 1]) + Entries(c, closed[|closed| - 1].data)
  }

  /** What recovery reads if the open file survives a crash up to its k-th byte. */
  function Recovered(c: Codec, w: Writer, k: nat): seq<Entry>
    requires k <= |w.data|
  {
    ClosedEntries(c, w.closed) + Entries(c, w.data[..k])
  }

  /** The entries of a batch are among es, next to each other and in order. */
  ghost predicate Includes(es: seq<Entry>, logs: seq<Entry>) {
    exists p :: HoldsAt(es, logs, p)
  }

  predicate HoldsAt(es: seq<Entry>, logs: seq<Entry>, p: int) {
    0 <= p <= |es| - |logs| && es[p..p + |logs|] == logs
  }

  lemma HoldsLonger(es: seq<Entry>, fs: seq<Entry>, logs: seq<Entry>)
    requires Includes(es, logs) && es <= fs
    ensures Includes(fs, logs)
  {
    var p :| HoldsAt(es, logs, p);
    assert fs[..|es|] == es;
    assert fs[p..p + |logs|] == fs[..|es|][p..p + |logs|];
    assert HoldsAt(fs, logs, p);
  }

  /** A crash keeps at least what was synced, so recovery reads at least that much. */
  lemma CrashKeeps(c: Codec, w: Writer, k: nat)
    requires w.synced <= k <= |w.data|
    ensures Recovered(c, w, w.synced) <= Recovered(c, w, k) <= Recovered(c, w, |w.data|)
  {
    assert w.data[..k][..w.synced] == w.data[..w.synced];
    assert w.data[..|w.data|] == w.data;
    ScanGrows(c, w.data[..k], w.synced);
    ScanGrows(c, w.data, k);
  }

  // ------------------------------------------------------------------ the invariant

  ghost predicate WaitingHeld(c: Codec, w: Writer) {
    forall b <- w.waiting :: Includes(Recovered(c, w, |w.data|), b.logs)
  }

  ghost predicate ToldHeld(c: Codec, w: Writer)
    requires w.synced <= |w.data|
  {
    forall a <- w.told :: a.ok ==> Includes(Recovered(c, w, w.synced), a.batch.logs)
  }

  /** The files are whole records, at least as far as the last successful sync. */
  ghost predicate FilesOk(c: Codec, w: Writer) {
    && w.pos <= |w.data| && w.synced <= |w.data|
    && Clean(c, w.data) && Clean(c, w.data[..w.synced])
  }

  /** The offset is at the end of the file, or nothing has been written since the file was opened. */
  predicate AtEnd(w: Writer) {
    w.pos == |w.data| || (w.pos == 0 && w.waiting == [] && forall a <- w.told :: !a.ok)
  }

  ghost predicate Sound(c: Codec, w: Writer) {
    && FilesOk(c, w) && AtEnd(w)
    && WaitingHeld(c, w) && ToldHeld(c, w)
    && (w.waiting != [] ==> w.pendingCount > 0)
  }

  // ------------------------------------------------------------------ every step keeps it

  lemma {:induction false} FlatHolds(batches: seq<Batch>, b: Batch)
    requires b in batches
    ensures Includes(Flat(batches), b.logs)
    decreases |batches|
  {
    var before, last := batches[..|batches| - 1], batches[|batches| - 1];
    if b == last {
      var p := |Flat(before)|;
      assert HoldsAt(Flat(batches), b.logs, p);
    } else {
      assert b in before;
      FlatHolds(before, b);
      HoldsLonger(Flat(before), Flat(batches), b.logs);
    }
  }

  lemma HoldsBehind(ds: seq<Entry>, es: seq<Entry>, logs: seq<Entry>)
    requires Includes(es, logs)
    ensures Includes(ds + es, logs)
  {
    var p :| HoldsAt(es, logs, p);
    assert HoldsAt(ds + es, logs, |ds| + p);
  }

  /** Appended records are read back behind what the file held. */
  lemma AppendReads(c: Codec, w: Writer, batches: seq<Batch>)
    requires AllReadable(c, Flat(batches)) && Clean(c, w.data)
    ensures var w' := Append(c, w, batches);
      && Clean(c, w'.data)
      && Recovered(c, w', |w'.data|) == Recovered(c, w, |w.data|) + Flat(batches)
      && (w.synced <= |w.data| ==> w'.data[..w.synced] == w.data[..w.synced])
  {
    hide Scan, Encode, AllReadable, Flat;
    var w' := Append(c, w, batches);
    assert w.data[..|w.data|] == w.data && w'.data[..|w'.data|] == w'.data;
    RecoveredThenAppended(c, w.data, Flat(batches));
  }

  lemma RecoveredSame(c: Codec, v: Writer, w: Writer, k: nat)
    requires k <= |v.data| && k <= |w.data| && v.data[..k] == w.data[..k] && v.closed == w.closed
    ensures Recovered(c, v, k) == Recovered(c, w, k)
  {}

  lemma SyncFields(w: Writer)
    ensures var v := Sync(w, true); v.synced == |v.data| && v.data == w.data && v.pos == w.pos
  {}

  lemma AppendSound(c: Codec, w: Writer, t: Turn)
    requires Sound(c, w) && GoodTurn(c, t)
    ensures Sound(c, Append(c, w, t.batches))
  {
    hide Recovered, Includes, Clean, Append, Flat, AllReadable;
    var w' := Append(c, w, t.batches);
    AppendReads(c, w, t.batches);
    AppendFields(c, w, t);
    var es, fs := Recovered(c, w, |w.data|), Recovered(c, w', |w'.data|);
    forall b <- w'.waiting ensures Includes(fs, b.logs) {
      if b in w.waiting {
        HoldsLonger(es, fs, b.logs);
      } else {
        FlatHolds(t.batches, b);
        HoldsBehind(es, Flat(t.batches), b.logs);
      }
    }
    RecoveredSame(c, w, w', w.synced);
  }

  lemma AppendFields(c: Codec, w: Writer, t: Turn)
    requires GoodTurn(c, t) && w.pos <= |w.data|
    ensures var w' := Append(c, w, t.batches);
      && w'.waiting == w.waiting + t.batches && w'.told == w.told && w'.closed == w.closed && w'.synced == w.synced
      && w.data <= w'.data && w'.pos <= |w'.data| && w.pendingCount <= w'.pendingCount
      && (t.batches != [] ==> w'.pos == |w'.data| && w'.pendingCount > 0)
      && (t.batches == [] ==> w'.pos == w.pos && w'.data == w.data)
  {
    if t.batches != [] {
      var b := t.batches[|t.batches| - 1];
      assert b in t.batches;
      assert |Flat(t.batches)| >= |b.logs| > 0;
    } else {
      assert Flat(t.batches) == [] && Encode(c, Flat(t.batches)) == [];
    }
  }

  lemma SyncSound(c: Codec, w: Writer, ok: bool)
    requires Sound(c, w)
    ensures Sound(c, Notify(Sync(w, ok), ok)) && Sound(c, Sync(w, ok))
  {
    hide Includes, Clean;
    var w' := Sync(w, ok);
    CrashKeeps(c, w, w.synced);
    assert w.data[..|w.data|] == w.data;
    forall a <- w'.told ensures a.ok ==> Includes(Recovered(c, w', w'.synced), a.batch.logs) {
      if a.ok && ok {
        HoldsLonger(Recovered(c, w, w.synced), Recovered(c, w, |w.data|), a.batch.logs);
      }
    }
    NotifySound(c, w', ok);
  }

  /** Answering everybody true is right when everything is synced, and answering false always. */
  lemma NotifySound(c: Codec, w: Writer, ok: bool)
    requires Sound(c, w) && (ok ==> w.synced == |w.data|)
    ensures Sound(c, Notify(w, ok))
  {
    hide Includes, Clean, Recovered;
    var w' := Notify(w, ok);
    RecoveredSame(c, w, w', w.synced);
    forall a <- w'.told ensures a.ok ==> Includes(Recovered(c, w', w'.synced), a.batch.logs) {
      if a !in w.told {
        var i :| 0 <= i < |Answers(w.waiting, ok)| && a == Answers(w.waiting, ok)[i];
        assert w.waiting[i] in w.waiting;
      }
    }
    if w.waiting == [] {
      assert w'.told == w.told;
    }
  }

  lemma RollSound(c: Codec, w: Writer)
    requires Sound(c, w) && w.synced == |w.data| && w.pos == |w.data|
    ensures Sound(c, Notify(Roll(w), true))
  {
    hide Includes;
    var w' := Roll(w);
    assert w.data[..|w.data|] == w.data;
    assert w'.closed[..|w'.closed| - 1] == w.closed;
    NothingToRead(c);
    assert Recovered(c, w', 0) == Recovered(c, w, |w.data|);
    NotifySound(c, w', true);
  }

  lemma RollbackSound(c: Codec, w: Writer, batches: seq<Batch>, j: nat)
    requires Sound(c, w) && j < |batches|
    ensures Sound(c, Rollback(w, batches, j))
  {
    hide Includes;
    var w' := Rollback(w, batches, j);
    assert w'.told == w.told + Answers(w.waiting + batches[..j + 1], false);
    if w.pos == |w.data| {
      assert w'.data == w.data;
    } else {
      assert w'.data == [];
      NothingToRead(c);
    }
  }

  /** A turn keeps everything that was promised. */
  lemma TakeSound(c: Codec, w: Writer, t: Turn)
    requires Sound(c, w) && GoodTurn(c, t)
    ensures Sound(c, Take(c, w, t))
  {
    assert AllReadable(c, Flat(t.batches)) && FilesOk(c, w);
    hide Sound, Append, Rollback, Roll, Sync, Notify, GoodTurn;
    if Fails(t) {
      RollbackSound(c, w, t.batches, Victim(t.batches, t.fault.at));
    } else {
      var w' := Append(c, w, t.batches);
      AppendSound(c, w, t);
      SyncSound(c, w', t.sync);
      if Flat(t.batches) != [] && (w'.segCount >= MAX_ENTRIES || w'.segBytes >= MAX_BYTES) {
        if t.sync {
          SyncSound(c, w', true);
          AppendFields(c, w, t);
          assert t.batches != [];
          SyncFields(w');
          RollSound(c, Sync(w', true));
        } else {
          NotifySound(c, w', false);
        }
      }
    }
  }

  lemma FreshSound(c: Codec, w: Writer)
    requires Fresh(c, w)
    ensures Sound(c, w)
  {}

  lemma {:induction false} RunSound(c: Codec, w: Writer, turns: seq<Turn>)
    requires Fresh(c, w) && Good(c, turns)
    ensures Sound(c, Run(c, w, turns))
    decreases |turns|
  {
    if turns == [] {
      FreshSound(c, w);
    } else {
      RunSound(c, w, turns[..|turns| - 1]);
      assert turns[|turns| - 1] in turns;
      TakeSound(c, Run(c, w, turns[..|turns| - 1]), turns[|turns| - 1]);
    }
  }

  /**
    Group commit: under any pattern of failing writes and syncs, the entries of a batch that was told true
    are recovered, together and in order, from whatever a crash leaves of the open file.
   */
  lemma ToldTrueSurvives(c: Codec, w: Writer, turns: seq<Turn>, b: Batch, k: nat)
    requires Fresh(c, w) && Good(c, turns)
    requires Answer(b, true) in Run(c, w, turns).told
    requires Run(c, w, turns).synced <= k <= |Run(c, w, turns).data|
    ensures Includes(Recovered(c, Run(c, w, turns), k), b.logs)
  {
    hide Run, Recovered, Includes;
    var r := Run(c, w, turns);
    RunSound(c, w, turns);
    CrashKeeps(c, r, k);
    HoldsLonger(Recovered(c, r, r.synced), Recovered(c, r, k), b.logs);
  }

  // ------------------------------------------------------------------ who is answered

  function Batches(told: seq<Answer>): (r: seq<Batch>)
    ensures |r| == |told| && forall i :: 0 <= i < |r| ==> r[i] == told[i].batch
    decreases |told|
  {
    if told == [] then [] else Batches(told[..|told| - 1]) + [told[|told| - 1].batch]
  }

  /** Every batch the writer has taken: answered, waiting, or forgotten. */
  function Taken(w: Writer): multiset<Batch> {
    multiset(Batches(w.told)) + multiset(w.waiting) + multiset(w.dropped)
  }

  /** Every batch the queue has handed out. */
  function Issued(turns: seq<Turn>): multiset<Batch>
    decreases |turns|
  {
    if turns == [] then multiset{} else Issued(turns[..|turns| - 1]) + multiset(turns[|turns| - 1].batches)
  }

  lemma BatchesOfNotified(w: Writer, ok: bool)
    ensures Batches(Notify(w, ok).told) == Batches(w.told) + w.waiting
  {}

  /** Moving batches from one list to another, and adding new ones, as multisets. */
  lemma Sorted(x: seq<Batch>, w: seq<Batch>, d: seq<Batch>, bs: seq<Batch>, j: nat)
    requires j <= |bs|
    ensures multiset(x + w) + multiset([]) + multiset(d) == multiset(x) + multiset(w) + multiset(d)
    ensures multiset(x) + multiset(w + bs[..j]) + multiset(d + bs[j..])
            == multiset(x) + multiset(w) + multiset(d) + multiset(bs)
    ensures multiset(x) + multiset(w + bs) + multiset(d) == multiset(x) + multiset(w) + multiset(d) + multiset(bs)
  {
    assert bs == bs[..j] + bs[j..];
  }

  lemma NotifyTaken(w: Writer, ok: bool)
    ensures Taken(Notify(w, ok)) == Taken(w)
  {
    hide Batches, Answers;
    BatchesOfNotified(w, ok);
    Sorted(Batches(w.told), w.waiting, w.dropped, [], 0);
  }

  lemma TakeTakes(c: Codec, w: Writer, t: Turn)
    requires AllReadable(c, Flat(t.batches)) && w.pos <= |w.data|
    ensures Taken(Take(c, w, t)) == Taken(w) + multiset(t.batches)
  {
    hide Flat, Encode, Victim, Notify, Batches, AllReadable;
    var bs := t.batches;
    if Fails(t) {
      RollbackTaken(w, bs, Victim(bs, t.fault.at));
    } else {
      var w' := Append(c, w, bs);
      assert Taken(w') == Taken(w) + multiset(bs) by {
        Sorted(Batches(w.told), w.waiting, w.dropped, bs, 0);
      }
      NotifyTaken(w', t.sync);
      NotifyTaken(Sync(w', t.sync), t.sync);
      NotifyTaken(Roll(Sync(w', true)), true);
      SameTaken(Sync(w', t.sync), w');
      SameTaken(Roll(Sync(w', true)), w');
    }
  }

  lemma SameTaken(v: Writer, w: Writer)
    requires v.told == w.told && v.waiting == w.waiting && v.dropped == w.dropped
    ensures Taken(v) == Taken(w)
  {}

  lemma RollbackTaken(w: Writer, bs: seq<Batch>, j: nat)
    requires w.pos <= |w.data| && j < |bs|
    ensures Taken(Rollback(w, bs, j)) == Taken(w) + multiset(bs)
  {
    hide Batches, Notify;
    var w' := w.(data := w.data[..w.pos], synced := if w.synced < w.pos then w.synced else w.pos,
                 waiting := w.waiting + bs[..j + 1], dropped := w.dropped + bs[j + 1..]);
    Sorted(Batches(w.told), w.waiting, w.dropped, bs, j + 1);
    NotifyTaken(w', false);
  }

  lemma {:induction false} RunTakes(c: Codec, w: Writer, turns: seq<Turn>)
    requires Fresh(c, w) && Good(c, turns)
    ensures Taken(Run(c, w, turns)) == Issued(turns)
    decreases |turns|
  {
    if turns != [] {
      RunTakes(c, w, turns[..|turns| - 1]);
      assert turns[|turns| - 1] in turns;
      TakeTakes(c, Run(c, w, turns[..|turns| - 1]), turns[|turns| - 1]);
    }
  }

  /** No batch is answered twice: what has been answered was handed out, each as often as it was. */
  lemma NoneToldTwice(c: Codec, w: Writer, turns: seq<Turn>, b: Batch)
    requires Fresh(c, w) && Good(c, turns) && Issued(turns)[b] <= 1
    ensures multiset(Batches(Run(c, w, turns).told))[b] <= 1
    ensures b in Run(c, w, turns).waiting || b in Run(c, w, turns).dropped ==> b !in Batches(Run(c, w, turns).told)
  {
    hide Run, Batches;
    RunTakes(c, w, turns);
    var r := Run(c, w, turns);
    assert Taken(r)[b] == multiset(Batches(r.told))[b] + multiset(r.waiting)[b] + multiset(r.dropped)[b];
    assert b in r.waiting ==> multiset(r.waiting)[b] > 0;
    assert b in r.dropped ==> multiset(r.dropped)[b] > 0;
    assert b in Batches(r.told) ==> multiset(Batches(r.told))[b] > 0;
  }

  // ------------------------------------------------------------------ failed writes

  /** A turn whose write, if it fails, fails in the last batch of its bulk. */
  predicate FailsLate(t: Turn) {
    Fails(t) ==> Victim(t.batches, t.fault.at) == |t.batches| - 1
  }

  lemma TakeDrops(c: Codec, w: Writer, t: Turn)
    requires AllReadable(c, Flat(t.batches)) && w.pos <= |w.data|
    ensures Take(c, w, t).dropped
            == w.dropped + if Fails(t) then t.batches[Victim(t.batches, t.fault.at) + 1..] else []
  {}

  lemma {:induction false} RunDrops(c: Codec, w: Writer, turns: seq<Turn>)
    requires Fresh(c, w) && Good(c, turns)
    ensures Run(c, w, turns).dropped == [] <==> forall t <- turns :: FailsLate(t)
    decreases |turns|
  {
    if turns != [] {
      var before, t := turns[..|turns| - 1], turns[|turns| - 1];
      assert t in turns && turns == before + [t];
      RunDrops(c, w, before);
      TakeDrops(c, Run(c, w, before), t);
    }
  }

  /**
    When the writer stops, every batch it took has been answered, except those behind a failed write in
    its bulk: all are answered exactly when every failed write was in the last batch of its bulk.
   */
  lemma EachAnsweredOnce(c: Codec, w: Writer, turns: seq<Turn>, sync: bool)
    requires Fresh(c, w) && Good(c, turns)
    ensures var r := Finish(Run(c, w, turns), sync);
      && r.waiting == []
      && multiset(Batches(r.told)) + multiset(r.dropped) == Issued(turns)
      && (multiset(Batches(r.told)) == Issued(turns) <==> forall t <- turns :: FailsLate(t))
  {
    var end := Run(c, w, turns);
    RunSound(c, w, turns);
    RunTakes(c, w, turns);
    RunDrops(c, w, turns);
    hide Run, Batches, Issued, FailsLate, Good, Fresh, Notify;
    FinishTaken(end, sync);
    var r := Finish(end, sync);
    LeftOver(Batches(r.told), r.dropped, Issued(turns));
  }

  /** Two batches of one record each, of which the first is not written: the second is never answered. */
  lemma SecondBatchForgotten(c: Codec, w: Writer, a: Entry, b: Entry)
    requires Fresh(c, w) && AllReadable(c, [a, b])
    ensures var first, second := Batch(0, [a]), Batch(1, [b]);
      var t := Turn([first, second], Fault(0, 0), true, true);
      && AllReadable(c, Flat(t.batches))
      && Take(c, w, t).told == [Answer(first, false)]
      && Take(c, w, t).waiting == [] && Take(c, w, t).dropped == [second]
  {
    var first, second := Batch(0, [a]), Batch(1, [b]);
    var two, one, none := [first, second], [first], [];
    assert two[..1] == one && one[..0] == none && Flat(none) == [];
    assert Flat(one) == [a] && Flat(two) == [a, b];
    assert Victim(two, 0) == 0;
    assert two[..1] == [first] && two[1..] == [second];
    assert [first][..0] == [] && Answers([], false) == [];
    assert Answers([first], false) == [Answer(first, false)];
    assert w.waiting + [first] == [first] && w.told + [Answer(first, false)] == [Answer(first, false)];
    assert w.dropped + [second] == [second];
  }

  lemma FinishTaken(w: Writer, sync: bool)
    requires w.waiting != [] ==> w.pendingCount > 0
    ensures var r := Finish(w, sync);
      r.waiting == [] && r.dropped == w.dropped && multiset(Batches(r.told)) + multiset(r.dropped) == Taken(w)
  {
    hide Batches;
    if w.pendingCount > 0 {
      NotifyTaken(Sync(w, sync), sync);
      SameTaken(Sync(w, sync), w);
    }
  }

  lemma LeftOver(told: seq<Batch>, dropped: seq<Batch>, all: multiset<Batch>)
    requires multiset(told) + multiset(dropped) == all
    ensures multiset(told) == all <==> dropped == []
  {
    assert |multiset(told) + multiset(dropped)| == |told| + |dropped|;
  }

  /**
    A failed write puts the segment counters back, and cuts the file to where the offset stood. That is
    the file as it was exactly when the offset stood at its end.
   */
  lemma FailedWriteExact(c: Codec, w: Writer, t: Turn)
    requires AllReadable(c, Flat(t.batches)) && w.pos <= |w.data| && Fails(t)
    ensures var r := Take(c, w, t);
      && r.segFirst == w.segFirst && r.segLast == w.segLast && r.segCount == w.segCount && r.segBytes == w.segBytes
      && r.closed == w.closed && r.data == w.data[..w.pos] && r.pos == |r.data|
      && (r.data == w.data <==> w.pos == |w.data|)
  {}

  /** ReopenLatestSegment: the recovered file, with the offset at its start. */
  function Reopened(w: Writer): Writer {
    w.(pos := 0, synced := |w.data|, pendingCount := 0, pendingBytes := 0, waiting := [], told := [], dropped := [])
  }

  /** The first write after a restart, if it fails, erases everything recovered from the open segment. */
  lemma FailAfterReopen(c: Codec, w: Writer, t: Turn)
    requires AllReadable(c, Flat(t.batches)) && Fails(t)
    ensures Take(c, Reopened(w), t).data == []
    ensures Recovered(c, Take(c, Reopened(w), t), 0) == ClosedEntries(c, w.closed)
  {
    NothingToRead(c);
  }

  /** After any successful write, or in a new segment, the offset stands at the end, and stays there. */
  lemma {:induction false} OffsetSettles(c: Codec, w: Writer, turns: seq<Turn>)
    requires Good(c, turns) && w.pos <= |w.data|
    requires w.pos == |w.data| || exists t <- turns :: !Fails(t) && t.batches != []
    ensures Run(c, w, turns).pos == |Run(c, w, turns).data|
    decreases |turns|
  {
    if turns != [] {
      var before, t := turns[..|turns| - 1], turns[|turns| - 1];
      assert t in turns && turns == before + [t];
      TakePos(c, Run(c, w, before), t);
      if !Fails(t) && t.batches != [] {
        AppendFields(c, Run(c, w, before), t);
        var b := t.batches[|t.batches| - 1];
        assert b in t.batches && |Flat(t.batches)| >= |b.logs| > 0;
      } else {
        OffsetSettles(c, w, before);
      }
    }
  }
}
