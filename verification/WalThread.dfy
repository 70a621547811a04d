/**
  The writer thread as an object: one turn of its loop writes the bulk record by record, keeps the
  segment counters, rolls the segment back or over, and answers. It is proved to take the writer from
  one state to the next as WalWriter says.
 */
module WalThread {
  import opened Bytes
  import opened RaftTypes
  import opened WalCodec
  import opened WalWriter
  import WalSegments

  class GroupCommit {
    const codec: Codec
    var data: seq<Byte>
    var pos: nat
    ghost var synced: nat
    var closed: seq<Segment>
    var segFirst: int
    var segLast: int
    var segCount: nat
    var segBytes: nat
    var pendingCount: nat
    var pendingBytes: nat
    var waiting: seq<Batch>
    var told: seq<Answer>
    ghost var dropped: seq<Batch>

    ghost function State(): Writer
      reads this
    {
      Writer(data, pos, synced, closed, segFirst, segLast, segCount, segBytes,
             pendingCount, pendingBytes, waiting, told, dropped)
    }

    /** OpenSegment on a file that does not exist yet. */
    constructor (c: Codec, first: int)
      ensures codec == c && Fresh(c, State()) && data == [] && closed == []
      ensures segFirst == first && segLast == first - 1 && segCount == 0 && segBytes == 0
    {
      codec := c;
      data, pos, synced, closed := [], 0, 0, [];
      segFirst, segLast, segCount, segBytes := first, first - 1, 0, 0;
      pendingCount, pendingBytes, waiting, told, dropped := 0, 0, [], [], [];
      new;
      NothingToRead(c);
    }

    /** Everybody who waits is told the same. */
    method NotifyAll(ok: bool)
      modifies this`waiting, this`told, this`pendingCount, this`pendingBytes
      ensures State() == Notify(old(State()), ok)
    {
      ghost var w := State();
      for i := 0 to |waiting|
        invariant waiting == w.waiting && told == w.told + Answers(waiting[..i], ok)
      {
        told := told + [Answer(waiting[i], ok)];
        assert waiting[..i + 1][..i] == waiting[..i];
      }
      assert waiting[..|waiting|] == waiting;
      waiting, pendingCount, pendingBytes := [], 0, 0;
    }

    /** One record at the end of the file, and the counters of the segment. */
    method WriteRecord(e: Entry)
      requires Readable(codec, e)
      modifies this`data, this`pos, this`segLast, this`segCount, this`segBytes
      ensures data == old(data) + Record(codec, e) && pos == |data| && segLast == e.index
      ensures segCount == old(segCount) + 1 && segBytes == old(segBytes) + |Record(codec, e)|
    {
      var record := Record(codec, e);
      data := data + record;
      pos := |data|;
      segLast, segCount, segBytes := e.index, segCount + 1, segBytes + |record|;
    }

    /** A record of which only part reaches the file. */
    method TearRecord(e: Entry, part: nat)
      requires Readable(codec, e)
      modifies this`data
      ensures old(data) <= data
    {
      var record := Record(codec, e);
      data := data + (if part < |record| then record[..part] else []);
    }

    /** The file and its counters after records for es have been written to it. */
    ghost predicate Grown(w: Writer, es: seq<Entry>)
      requires AllReadable(codec, es)
      reads this
    {
      && data == w.data + Encode(codec, es) && pos == (if es == [] then w.pos else |data|)
      && segLast == (if es == [] then w.segLast else es[|es| - 1].index)
      && segCount == w.segCount + |es| && segBytes == w.segBytes + |Encode(codec, es)|
    }

    /** One more record. */
    lemma GrownNext(w: Writer, es: seq<Entry>, e: Entry, d: seq<Byte>, n: nat, b: nat)
      requires AllReadable(codec, es) && Readable(codec, e)
      requires d == w.data + Encode(codec, es) && n == w.segCount + |es| && b == w.segBytes + |Encode(codec, es)|
      requires data == d + Record(codec, e) && pos == |data| && segLast == e.index
      requires segCount == n + 1 && segBytes == b + |Record(codec, e)|
      ensures AllReadable(codec, es + [e]) && Grown(w, es + [e])
    {
      hide Record, Encode, Readable;
      WalSegments.EncodeSnoc(codec, es, e);
    }

    /** Writes the records of one batch; before holds the records of the bulk written so far. */
    method WriteBatch(logs: seq<Entry>, fault: Fault, ghost w: Writer, ghost before: seq<Entry>, written: nat)
      returns (ok: bool)
      requires AllReadable(codec, logs) && AllReadable(codec, before) && Grown(w, before) && written == |before|
      requires fault.Fault? ==> written <= fault.at
      modifies this`data, this`pos, this`segLast, this`segCount, this`segBytes
      ensures AllReadable(codec, before + logs)
      ensures ok <==> !(fault.Fault? && fault.at < written + |logs|)
      ensures if ok then Grown(w, before + logs) else w.data <= data
    {
      hide Record, Encode, Readable;
      assert before + logs[..0] == before;
      for j := 0 to |logs|
        invariant AllReadable(codec, before + logs[..j]) && Grown(w, before + logs[..j])
        invariant fault.Fault? ==> written + j <= fault.at
      {
        if fault.Fault? && fault.at == written + j {
          TearRecord(logs[j], fault.part);
          assert AllReadable(codec, before + logs);
          return false;
        }
        ghost var d, n, b := data, segCount, segBytes;
        WriteRecord(logs[j]);
        GrownNext(w, before + logs[..j], logs[j], d, n, b);
        assert before + logs[..j + 1] == before + logs[..j] + [logs[j]];
      }
      assert logs[..|logs|] == logs;
      ok := true;
    }

    /** Writes a bulk, batch by batch; next is how many batches have been taken up. */
    method WriteBulk(batches: seq<Batch>, fault: Fault) returns (ok: bool, next: nat)
      requires AllReadable(codec, Flat(batches))
      modifies this`data, this`pos, this`segLast, this`segCount, this`segBytes, this`waiting
      ensures next <= |batches| && waiting == old(waiting) + batches[..next]
      ensures ok <==> !(fault.Fault? && fault.at < |Flat(batches)|)
      ensures ok ==> next == |batches| && Grown(old(State()), Flat(batches))
      ensures !ok ==> next == Victim(batches, fault.at) + 1 && old(data) <= data
    {
      hide Record, Encode, Readable, Flat;
      ghost var w := State();
      var written := 0;
      next := 0;
      FlatNothing(batches);
      NothingGrown(w);
      while next < |batches|
        invariant next <= |batches| && waiting == w.waiting + batches[..next]
        invariant AllReadable(codec, Flat(batches[..next])) && Grown(w, Flat(batches[..next]))
        invariant written == |Flat(batches[..next])|
        invariant fault.Fault? ==> written <= fault.at
        decreases |batches| - next
      {
        FlatNext(batches, next);
        var logs := batches[next].logs;
        assert AllReadable(codec, logs);
        waiting := waiting + [batches[next]];
        ok := WriteBatch(logs, fault, w, Flat(batches[..next]), written);
        if !ok {
          VictimAt(batches, fault.at, next);
          next := next + 1;
          return;
        }
        next, written := next + 1, written + |logs|;
      }
      assert batches[..|batches|] == batches;
      ok := true;
    }

    lemma NothingGrown(w: Writer)
      requires w == State()
      ensures AllReadable(codec, []) && Grown(w, [])
    {
      assert Encode(codec, []) == [];
    }

    /** Back to the state before the bulk, as far as the offset remembers it. */
    method Undo(start: nat, last: int, count: nat, bytes: nat, rest: seq<Batch>)
      requires start <= |data|
      modifies this
      ensures var w := old(State());
        State() == Notify(w.(data := w.data[..start], pos := start, synced := if w.synced < start then w.synced else start,
                             segLast := last, segCount := count, segBytes := bytes, dropped := w.dropped + rest), false)
    {
      data, pos := data[..start], start;
      synced := if synced < start then synced else start;
      segLast, segCount, segBytes := last, count, bytes;
      dropped := dropped + rest;
      NotifyAll(false);
    }

    /** The bulk is written: sync, roll and answer as is due. */
    method Conclude(grew: bool, t: Turn)
      modifies this
      ensures var w := old(State());
        State() == if grew && (w.segCount >= MAX_ENTRIES || w.segBytes >= MAX_BYTES)
                   then Notify(if t.sync then Roll(Sync(w, true)) else w, t.sync) else Settle(w, t)
    {
      if grew && (segCount >= MAX_ENTRIES || segBytes >= MAX_BYTES) {
        if t.sync {
          synced := |data|;
          RollSegment();
        }
        NotifyAll(t.sync);
        return;
      }
      if pendingCount > 0 && (pendingCount >= SYNC_COUNT || pendingBytes >= SYNC_BYTES || t.due) {
        if t.sync {
          synced := |data|;
        }
        NotifyAll(t.sync);
      }
    }

    /** One turn of the loop. */
    method TakeTurn(t: Turn)
      requires AllReadable(codec, Flat(t.batches)) && pos <= |data|
      modifies this
      ensures State() == Take(codec, old(State()), t)
    {
      hide Flat, Encode, Readable, Notify, Roll, Settle;
      ghost var w := State();
      var start, last, count, bytes := pos, segLast, segCount, segBytes;
      var ok, next := WriteBulk(t.batches, t.fault);
      if ok {
        assert t.batches[..|t.batches|] == t.batches;
        pendingCount := pendingCount + (segCount - count);
        pendingBytes := pendingBytes + (segBytes - bytes);
        assert State() == Append(codec, w, t.batches);
        Conclude(segCount > count, t);
      } else {
        assert data[..start] == w.data[..start];
        Undo(start, last, count, bytes, t.batches[next..]);
      }
    }

    method RollSegment()
      modifies this`data, this`pos, this`synced, this`closed, this`segFirst, this`segLast, this`segCount, this`segBytes
      ensures State() == Roll(old(State()))
    {
      closed := closed + [Segment(segFirst, segLast, data)];
      segFirst, segCount, segBytes := segLast + 1, 0, 0;
      segLast := segFirst - 1;
      data, pos, synced := [], 0, 0;
    }

    method Stop(sync: bool)
      modifies this
      ensures State() == Finish(old(State()), sync)
    {
      if pendingCount > 0 {
        if sync {
          synced := |data|;
        }
        NotifyAll(sync);
      }
    }
  }

  lemma FlatNothing(batches: seq<Batch>)
    ensures Flat(batches[..0]) == []
  {}

  lemma {:induction false} FlatPrefix(batches: seq<Batch>, i: nat)
    requires i <= |batches|
    ensures Flat(batches[..i]) <= Flat(batches)
    decreases |batches|
  {
    if i == |batches| {
      assert batches[..i] == batches;
    } else {
      var before := batches[..|batches| - 1];
      FlatPrefix(before, i);
      assert before[..i] == batches[..i];
      assert Flat(before) <= Flat(batches);
    }
  }

  lemma FlatNext(batches: seq<Batch>, i: nat)
    requires i < |batches|
    ensures Flat(batches[..i + 1]) == Flat(batches[..i]) + batches[i].logs
    ensures Flat(batches[..i + 1]) <= Flat(batches)
    ensures forall e <- batches[i].logs :: e in Flat(batches)
  {
    assert batches[..i + 1][..i] == batches[..i];
    FlatPrefix(batches, i + 1);
  }

  /** The batch in which record number at lies. */
  lemma {:induction false} VictimAt(batches: seq<Batch>, at: nat, i: nat)
    requires i < |batches| && |Flat(batches[..i])| <= at < |Flat(batches[..i])| + |batches[i].logs|
    ensures at < |Flat(batches)| && Victim(batches, at) == i
    decreases |batches|
  {
    FlatNext(batches, i);
    var before := batches[..|batches| - 1];
    if i == |batches| - 1 {
      assert before == batches[..i];
    } else {
      assert before[..i] == batches[..i];
      VictimAt(before, at, i);
    }
  }
}
