/**
  When the group-commit thread syncs, rolls over and answers, in numbers: 64 records or 128 KiB not synced
  yet, or the clock, or a segment of 1000 records or 8 MiB. Nobody waits behind a turn of which this holds.
 */
module WalAnswers {
  import opened Bytes
  import opened RaftTypes
  import opened WalCodec
  import opened WalWriter

  /** This many records and bytes that are not synced are enough, or the clock is. */
  predicate SyncDue(count: nat, bytes: nat, due: bool) {
    count > 0 && (count >= 64 || bytes >= 131072 || due)
  }

  /** The segment has grown and is full. */
  predicate RollDue(grown: nat, count: nat, bytes: nat) {
    grown > 0 && (count >= 1000 || bytes >= 8388608)
  }

  /** Exactly these batches have been told this, in order, behind what was told before. */
  ghost predicate Told(w: Writer, r: Writer, batches: seq<Batch>, ok: bool) {
    && |r.told| == |w.told| + |batches| && w.told <= r.told
    && forall i :: 0 <= i < |batches| ==> r.told[|w.told| + i] == Answer(batches[i], ok)
  }

  /** The records are at the end of the open segment, and counted. */
  ghost predicate Written(c: Codec, w: Writer, r: Writer, es: seq<Entry>)
    requires AllReadable(c, es)
  {
    && r.data == w.data + Encode(c, es) && r.pos == (if es == [] then w.pos else |r.data|)
    && r.closed == w.closed && r.segFirst == w.segFirst
    && r.segLast == (if es == [] then w.segLast else es[|es| - 1].index)
    && r.segCount == w.segCount + |es| && r.segBytes == w.segBytes + |Encode(c, es)|
  }

  /** The records are at the end of a segment closed under its first and last index, and the next one is empty. */
  ghost predicate RolledOver(c: Codec, w: Writer, r: Writer, es: seq<Entry>)
    requires AllReadable(c, es) && es != []
  {
    var last := es[|es| - 1].index;
    && r.closed == w.closed + [Segment(w.segFirst, last, w.data + Encode(c, es))]
    && r.data == [] && r.pos == 0 && r.synced == 0
    && r.segFirst == last + 1 && r.segLast == last && r.segCount == 0 && r.segBytes == 0
  }

  /**
    A turn whose writes succeed. If a sync or a roll is due, everybody who waits and everybody in the bulk is
    told how the sync went, nobody waits any more, and if it went well all that was written is synced or in a
    closed segment. Otherwise nobody is told anything, nothing is synced, and all of them wait.
   */
  lemma TurnExact(c: Codec, w: Writer, t: Turn)
    requires AllReadable(c, Flat(t.batches)) && w.pos <= |w.data| && !Fails(t)
    ensures var r, es := Take(c, w, t), Flat(t.batches);
      var count, bytes := w.pendingCount + |es|, w.pendingBytes + |Encode(c, es)|;
      var rolls := RollDue(|es|, w.segCount + |es|, w.segBytes + |Encode(c, es)|);
      && r.dropped == w.dropped
      && (if rolls && t.sync then RolledOver(c, w, r, es) else Written(c, w, r, es))
      && (if rolls || SyncDue(count, bytes, t.due) then
            && Told(w, r, w.waiting + t.batches, t.sync) && r.waiting == [] && r.pendingCount == 0 && r.pendingBytes == 0
            && (t.sync ==> r.synced == |r.data|) && (!t.sync ==> r.synced == w.synced)
          else
            && r.told == w.told && r.waiting == w.waiting + t.batches && r.pendingCount == count && r.pendingBytes == bytes
            && r.synced == w.synced)
  {
    hide Flat, Encode, AllReadable, Append, Settle, Notify, Sync, Roll;
    var w' := Append(c, w, t.batches);
    AppendExact(c, w, t.batches);
    SettleExact(w', t);
    EveryoneTold(w', false);
    RollTold(w');
  }

  lemma AppendExact(c: Codec, w: Writer, batches: seq<Batch>)
    requires AllReadable(c, Flat(batches))
    ensures var r, es := Append(c, w, batches), Flat(batches);
      && Written(c, w, r, es) && r.waiting == w.waiting + batches && r.told == w.told && r.synced == w.synced
      && r.pendingCount == w.pendingCount + |es| && r.pendingBytes == w.pendingBytes + |Encode(c, es)|
      && r.dropped == w.dropped
  {}

  lemma EveryoneTold(w: Writer, ok: bool)
    ensures var r := Notify(w, ok);
      Told(w, r, w.waiting, ok) && r == w.(told := r.told, waiting := [], pendingCount := 0, pendingBytes := 0)
  {}

  lemma SettleExact(w: Writer, t: Turn)
    ensures var r := Settle(w, t);
      if SyncDue(w.pendingCount, w.pendingBytes, t.due) then
        && Told(w, r, w.waiting, t.sync)
        && r == w.(told := r.told, waiting := [], pendingCount := 0, pendingBytes := 0,
                   synced := if t.sync then |w.data| else w.synced)
      else r == w
  {
    EveryoneTold(Sync(w, t.sync), t.sync);
    hide Notify;
  }

  lemma RollTold(w: Writer)
    ensures var r := Notify(Roll(Sync(w, true)), true);
      && Told(w, r, w.waiting, true)
      && r == w.(told := r.told, waiting := [], pendingCount := 0, pendingBytes := 0,
                 closed := w.closed + [Segment(w.segFirst, w.segLast, w.data)], data := [], pos := 0, synced := 0,
                 segFirst := w.segLast + 1, segLast := w.segLast, segCount := 0, segBytes := 0)
  {
    EveryoneTold(Roll(Sync(w, true)), true);
    hide Notify;
  }

  /** The batch in which record number at lies: the ones before it hold at most that many records. */
  lemma {:induction false} VictimExact(batches: seq<Batch>, at: nat)
    requires at < |Flat(batches)|
    ensures var j := Victim(batches, at);
      |Flat(batches[..j])| <= at < |Flat(batches[..j])| + |batches[j].logs|
    decreases |batches|
  {
    var before := batches[..|batches| - 1];
    if at < |Flat(before)| {
      VictimExact(before, at);
      assert before[..Victim(before, at)] == batches[..Victim(before, at)];
    } else {
      assert batches[..|batches| - 1] == before;
    }
  }

  /**
    A turn in which a write fails: everybody who waits is told false, and so are the batches of the bulk up
    to the one that was hit; the ones behind it are forgotten.
   */
  lemma FailedTurnExact(c: Codec, w: Writer, t: Turn)
    requires AllReadable(c, Flat(t.batches)) && w.pos <= |w.data| && t.fault.Fault? && t.fault.at < |Flat(t.batches)|
    ensures var r, j := Take(c, w, t), Victim(t.batches, t.fault.at);
      && Told(w, r, w.waiting + t.batches[..j + 1], false) && r.waiting == [] && r.pendingCount == 0 && r.pendingBytes == 0
      && r.dropped == w.dropped + t.batches[j + 1..]
      && r.synced == (if w.synced < w.pos then w.synced else w.pos)
  {
    hide Flat, Encode, AllReadable, Rollback, Victim;
    CutExact(w, t.batches, Victim(t.batches, t.fault.at));
  }

  lemma CutExact(w: Writer, batches: seq<Batch>, j: nat)
    requires w.pos <= |w.data| && j < |batches|
    ensures var r := Rollback(w, batches, j);
      && Told(w, r, w.waiting + batches[..j + 1], false) && r.waiting == [] && r.pendingCount == 0 && r.pendingBytes == 0
      && r.dropped == w.dropped + batches[j + 1..]
      && r.synced == (if w.synced < w.pos then w.synced else w.pos)
  {}

  /** Stopping: what has been written and not synced is synced and answered. */
  lemma StopExact(w: Writer, sync: bool)
    ensures var r := Finish(w, sync);
      if w.pendingCount == 0 then r == w else
      && Told(w, r, w.waiting, sync) && r.waiting == [] && r.synced == (if sync then |w.data| else w.synced)
      && r == w.(told := r.told, waiting := [], synced := r.synced, pendingCount := 0, pendingBytes := 0)
  {}

  // ------------------------------------------------------------------ nobody waits for long

  lemma SomeRecords(batches: seq<Batch>)
    requires batches != [] && forall b <- batches :: b.logs != []
    ensures Flat(batches) != []
  {
    var b := batches[|batches| - 1];
    assert b in batches && |Flat(batches)| >= |b.logs|;
  }

  /** Fewer than 64 records and 128 KiB wait, and nobody waits without a record. */
  ghost predicate Bounded(w: Writer) {
    w.pendingCount < 64 && w.pendingBytes < 131072 && (w.waiting != [] ==> w.pendingCount > 0)
  }

  lemma TakeBounded(c: Codec, w: Writer, t: Turn)
    requires GoodTurn(c, t) && w.pos <= |w.data| && Bounded(w)
    ensures Bounded(Take(c, w, t))
    ensures t.due ==> Take(c, w, t).waiting == []
  {
    hide Take, Flat, Encode;
    if Fails(t) {
      FailedTurnExact(c, w, t);
    } else {
      TurnExact(c, w, t);
      if t.batches != [] {
        SomeRecords(t.batches);
      } else {
        NothingWritten(c);
      }
    }
  }

  lemma NothingWritten(c: Codec)
    ensures Flat([]) == [] && Encode(c, []) == []
  {}

  /**
    In every run fewer than 64 records and 128 KiB wait behind a turn, and nobody waits behind one at which
    the clock is due, whichever writes and syncs fail.
   */
  lemma {:induction false} WaitsAreBounded(c: Codec, w: Writer, turns: seq<Turn>)
    requires Fresh(c, w) && Good(c, turns)
    ensures Bounded(Run(c, w, turns))
    ensures turns != [] && turns[|turns| - 1].due ==> Run(c, w, turns).waiting == []
    decreases |turns|
  {
    hide Take, Bounded;
    if turns == [] {
      FreshBounded(c, w);
    } else {
      var before, t := turns[..|turns| - 1], turns[|turns| - 1];
      assert t in turns;
      WaitsAreBounded(c, w, before);
      TakeBounded(c, Run(c, w, before), t);
    }
  }

  lemma FreshBounded(c: Codec, w: Writer)
    requires Fresh(c, w)
    ensures Bounded(w)
  {}
}
