/**
  Group commit (the writer thread in the constructor of src/persist/Persister.cc): batches are taken
  from a queue, written to the open segment, synced together, and answered. Writes and syncs may fail;
  which of them do is an input of each turn.
 */
module WalWriter {
  import opened Bytes
  import opened RaftTypes
  import opened WalCodec

  datatype Batch = Batch(id: nat, logs: seq<Entry>)
  datatype Answer = Answer(batch: Batch, ok: bool)
  datatype Segment = Segment(first: int, last: int, data: seq<Byte>)

  /** The open file and its offset, the segment counters, and who waits for an answer or has had one. */
  datatype Writer = Writer(
    data: seq<Byte>, pos: nat, synced: nat, closed: seq<Segment>,
    segFirst: int, segLast: int, segCount: nat, segBytes: nat,
    pendingCount: nat, pendingBytes: nat,
    waiting: seq<Batch>, told: seq<Answer>,
    // taken from the queue and forgotten
    dropped: seq<Batch>)

  /** The at-th record of a bulk is not written completely: only part of its bytes reach the file. */
  datatype Fault = NoFault | Fault(at: nat, part: nat)

  /** One turn of the loop: what the queue hands out, and how writing, syncing and the clock turn out. */
  datatype Turn = Turn(batches: seq<Batch>, fault: Fault, sync: bool, due: bool)

  const SYNC_COUNT := 64
  const SYNC_BYTES := 128 * 1024
  const MAX_ENTRIES := 1000
  const MAX_BYTES := 8 * 1024 * 1024

  // ------------------------------------------------------------------ one turn

  function Flat(batches: seq<Batch>): seq<Entry>
    decreases |batches|
  {
    if batches == [] then [] else Flat(batches[..|batches| - 1]) + batches[|batches| - 1].logs
  }

  predicate Fails(t: Turn) {
    t.fault.Fault? && t.fault.at < |Flat(t.batches)|
  }

  /** The batch that record number at belongs to. */
  function Victim(batches: seq<Batch>, at: nat): (j: nat)
    requires at < |Flat(batches)|
    ensures j < |batches|
    decreases |batches|
  {
    var before := batches[..|batches| - 1];
    if at < |Flat(before)| then Victim(before, at) else |batches| - 1
  }

  function Answers(waiting: seq<Batch>, ok: bool): (r: seq<Answer>)
    ensures |r| == |waiting| && forall i :: 0 <= i < |r| ==> r[i] == Answer(waiting[i], ok)
    decreases |waiting|
  {
    if waiting == [] then [] else Answers(waiting[..|waiting| - 1], ok) + [Answer(waiting[|waiting| - 1], ok)]
  }

  /** NotifyWaiters and NotifyCallbacks */
  function Notify(w: Writer, ok: bool): Writer {
    w.(waiting := [], told := w.told + Answers(w.waiting, ok), pendingCount := 0, pendingBytes := 0)
  }

  /** Every record of the bulk is written at the end of the file. */
  function Append(c: Codec, w: Writer, batches: seq<Batch>): Writer
    requires AllReadable(c, Flat(batches))
  {
    var es := Flat(batches);
    var bytes := Encode(c, es);
    w.(data := w.data + bytes, pos := if es == [] then w.pos else |w.data| + |bytes|,
       segLast := if es == [] then w.segLast else es[|es| - 1].index,
       segCount := w.segCount + |es|, segBytes := w.segBytes + |bytes|,
       pendingCount := w.pendingCount + |es|, pendingBytes := w.pendingBytes + |bytes|,
       waiting := w.waiting + batches)
  }

  /** A write failed in batch j: the file is cut at the offset from before, the rest of the bulk forgotten. */
  function Rollback(w: Writer, batches: seq<Batch>, j: nat): Writer
    requires w.pos <= |w.data| && j < |batches|
  {
    var w' := w.(data := w.data[..w.pos], synced := if w.synced < w.pos then w.synced else w.pos,
                 waiting := w.waiting + batches[..j + 1], dropped := w.dropped + batches[j + 1..]);
    Notify(w', false)
  }

  /** fdatasync */
  function Sync(w: Writer, ok: bool): Writer {
    if ok then w.(synced := |w.data|) else w
  }

  /** RollSegment: the open segment is renamed and a new one started behind it. */
  function Roll(w: Writer): Writer {
    w.(closed := w.closed + [Segment(w.segFirst, w.segLast, w.data)],
       data := [], pos := 0, synced := 0,
       segFirst := w.segLast + 1, segLast := w.segLast, segCount := 0, segBytes := 0)
  }

  function Settle(w: Writer, t: Turn): Writer {
    if w.pendingCount > 0 && (w.pendingCount >= SYNC_COUNT || w.pendingBytes >= SYNC_BYTES || t.due)
    then Notify(Sync(w, t.sync), t.sync)
    else w
  }

  function Take(c: Codec, w: Writer, t: Turn): Writer
    requires AllReadable(c, Flat(t.batches)) && w.pos <= |w.data|
  {
    if Fails(t) then Rollback(w, t.batches, Victim(t.batches, t.fault.at)) else
    var w' := Append(c, w, t.batches);
    if Flat(t.batches) != [] && (w'.segCount >= MAX_ENTRIES || w'.segBytes >= MAX_BYTES) then
      Notify(if t.sync then Roll(Sync(w', true)) else w', t.sync)
    else
      Settle(w', t)
  }

  /** After the last turn whatever is still pending is synced and answered. */
  function Finish(w: Writer, sync: bool): Writer {
    if w.pendingCount > 0 then Notify(Sync(w, sync), sync) else w
  }

  // ------------------------------------------------------------------ runs

  /** A turn of readable entries, no batch of which is empty: empty ones are answered before the queue. */
  predicate GoodTurn(c: Codec, t: Turn) {
    AllReadable(c, Flat(t.batches)) && forall b <- t.batches :: b.logs != []
  }

  predicate Good(c: Codec, turns: seq<Turn>) {
    forall t <- turns :: GoodTurn(c, t)
  }

  /** An opened segment with nothing pending; its offset is 0 until the first write. */
  predicate Fresh(c: Codec, w: Writer) {
    && w.pos == 0 && w.synced <= |w.data| && w.pendingCount == 0 && w.pendingBytes == 0
    && w.waiting == [] && w.told == [] && w.dropped == []
    && Clean(c, w.data) && Clean(c, w.data[..w.synced])
  }

  /** The reader cuts nothing off. */
  predicate Clean(c: Codec, bytes: seq<Byte>) {
    ValidLength(c, bytes) == |bytes|
  }

  function Run(c: Codec, w: Writer, turns: seq<Turn>): (r: Writer)
    requires Good(c, turns) && w.pos <= |w.data|
    ensures r.pos <= |r.data|
    decreases |turns|
  {
    if turns == [] then w
    else
      var t := turns[|turns| - 1];
      assert t in turns;
      TakePos(c, Run(c, w, turns[..|turns| - 1]), t);
      Take(c, Run(c, w, turns[..|turns| - 1]), t)
  }

  /** The offset never passes the end of the file, and is at the end as soon as anything has been written. */
  lemma TakePos(c: Codec, w: Writer, t: Turn)
    requires AllReadable(c, Flat(t.batches)) && w.pos <= |w.data|
    ensures var w' := Take(c, w, t);
      w'.pos <= |w'.data| && (w.pos == |w.data| || (!Fails(t) && Flat(t.batches) != []) ==> w'.pos == |w'.data|)
  {}
}
