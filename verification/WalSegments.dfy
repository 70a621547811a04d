/**
  Reading, recovering and compacting the segments of a write-ahead log on disk (src/persist/Persister.cc).
  A file is an object whose bytes are cut or appended to in place.
 */
module WalSegments {
  import opened Bytes
  import opened RaftTypes
  import opened RaftNode
  import opened WalCodec
  import opened WalReplay

  class File {
    var data: seq<Byte>

    constructor ()
      ensures data == []
    {
      data := [];
    }
  }

  // ------------------------------------------------------------------ one segment

  /** What ReadWalSegment hands on: the entries whose header index lies above the snapshot. */
  function Kept(c: Codec, bytes: seq<Byte>, s: nat): seq<Entry>
    decreases |bytes|
  {
    match ReadRecord(c, bytes)
    case None => []
    case Some(e) =>
      var rest := Kept(c, bytes[RecordSize(bytes)..], s);
      if Get(bytes[..8]) > s then [e] + rest else rest
  }

  /** A record's entry is handed on exactly if its index, as the header's unsigned number, lies above the snapshot. */
  lemma KeptExact(c: Codec, e: Entry, rest: seq<Byte>, s: nat)
    requires Readable(c, e) && s < 0x8000_0000
    ensures Kept(c, Record(c, e) + rest, s) == (if e.index > s || e.index < 0 then [e] else []) + Kept(c, rest, s)
  {
    var bytes := Record(c, e) + rest;
    ReadBackOne(c, e, rest);
    RecordParts(c, e, rest);
    Widths();
    GetPut(Uint64(e.index), 8);
    GetPut(|c.ser(e)|, 4);
    hide Put, Get, Pow256, ReadRecord;
    assert bytes[RecordSize(bytes)..] == rest;
  }

  /** Everything the header test drops, the replay would have ignored. */
  lemma {:induction false} KeptSuffices(c: Codec, bytes: seq<Byte>, s: nat, logs: seq<Entry>)
    requires s < 0x8000_0000
    ensures ReplayOnto(s, logs, Kept(c, bytes, s)) == ReplayOnto(s, logs, Entries(c, bytes))
    decreases |bytes|
  {
    hide RecordSize, Get, ReplayOnto;
    match ReadRecord(c, bytes)
    case None =>
    case Some(e) =>
      var rest := bytes[RecordSize(bytes)..];
      var logs' := Step(s, logs, e);
      assert Entries(c, bytes) == [e] + Entries(c, rest);
      KeptSuffices(c, rest, s, logs');
      ReplayHead(s, logs, e, Entries(c, rest));
      if Get(bytes[..8]) > s {
        ReplayHead(s, logs, e, Kept(c, rest, s));
      } else {
        assert e.index <= s;
      }
  }

  /** ReadWalSegment: reads up to the first torn or damaged record, and cuts the file off there. */
  method ReadWalSegment(c: Codec, f: File, s: nat) returns (logs: seq<Entry>)
    modifies f
    ensures logs == Kept(c, old(f.data), s)
    ensures f.data == old(f.data)[..ValidLength(c, old(f.data))]
  {
    hide ReadRecord, RecordSize, Get;
    var data := f.data;
    logs := [];
    var offset := 0;
    assert data[0..] == data;
    while ReadRecord(c, data[offset..]).Some?
      invariant offset <= |data| && f.data == data
      invariant Kept(c, data, s) == logs + Kept(c, data[offset..], s)
      invariant ValidLength(c, data) == offset + ValidLength(c, data[offset..])
      decreases |data| - offset
    {
      var bytes := data[offset..];
      var entry := ReadRecord(c, bytes).value;
      assert bytes[RecordSize(bytes)..] == data[offset + RecordSize(bytes)..];
      if Get(bytes[..8]) > s {
        logs := logs + [entry];
      }
      offset := offset + RecordSize(bytes);
    }
    f.data := data[..offset];
  }

  // ------------------------------------------------------------------ all segments

  /** The entries of several segments, one after the other. */
  function All(c: Codec, files: seq<seq<Byte>>): seq<Entry>
    decreases |files|
  {
    if files == [] then [] else All(c, files[..|files| - 1]) + Entries(c, files[|files| - 1])
  }

  ghost function Contents(files: seq<File>): (r: seq<seq<Byte>>)
    reads files
    ensures |r| == |files| && forall i :: 0 <= i < |files| ==> r[i] == files[i].data
  {
    if files == [] then [] else Contents(files[..|files| - 1]) + [files[|files| - 1].data]
  }

  ghost predicate Distinct(files: seq<File>) {
    forall i, j :: 0 <= i < j < |files| ==> files[i] != files[j]
  }

  lemma SegmentReplayed(c: Codec, bytes: seq<Byte>, s: nat, replay: seq<Entry>, es: seq<Entry>)
    requires s < 0x8000_0000 && Replay(s, replay) == Replay(s, es)
    ensures Replay(s, replay + Kept(c, bytes, s)) == Replay(s, es + Entries(c, bytes))
  {
    hide Kept, Scan, ReplayOnto;
    ReplayConcat(s, [], replay, Kept(c, bytes, s));
    KeptSuffices(c, bytes, s, Replay(s, replay));
    ReplayConcat(s, [], es, Entries(c, bytes));
  }

  /** Reading all segments in the order of their list, as the first loop of recovery and compaction does. */
  method ReadAll(c: Codec, files: seq<File>, s: nat) returns (replay: seq<Entry>)
    requires Distinct(files) && s < 0x8000_0000
    modifies files
    ensures Replay(s, replay) == Replay(s, All(c, old(Contents(files))))
    ensures forall f <- files :: f.data == old(f.data)[..ValidLength(c, old(f.data))]
  {
    hide Replay, Kept, Scan, ReplayOnto;
    ghost var before := Contents(files);
    replay := [];
    for i := 0 to |files|
      invariant Replay(s, replay) == Replay(s, All(c, before[..i]))
      invariant forall k :: 0 <= k < i ==> files[k].data == before[k][..ValidLength(c, before[k])]
      invariant forall k :: i <= k < |files| ==> files[k].data == before[k]
    {
      var logs := ReadWalSegment(c, files[i], s);
      assert before[..i + 1][..i] == before[..i];
      SegmentReplayed(c, before[i], s, replay, All(c, before[..i]));
      replay := replay + logs;
    }
    assert before[..|files|] == before;
  }

  /** ReadPersistedLogs: what recovery gives is the replay of everything on disk, contiguous from the snapshot. */
  method ReadPersistedLogs(c: Codec, files: seq<File>, s: nat) returns (logs: seq<Entry>)
    requires Distinct(files) && s < 0x8000_0000
    modifies files
    ensures logs == Replay(s, All(c, old(Contents(files)))) && Numbered(logs, s)
    ensures forall f <- files :: f.data == old(f.data)[..ValidLength(c, old(f.data))]
  {
    var replay := ReadAll(c, files, s);
    logs := ReplayLogs(s, replay);
  }

  // ------------------------------------------------------------------ compaction

  /** What is in the new segment when the write of record number at fails behind part of its bytes. */
  function Rewritten(c: Codec, logs: seq<Entry>, at: nat, part: nat): seq<Byte>
    requires AllReadable(c, logs)
  {
    if at >= |logs| then Encode(c, logs)
    else Encode(c, logs[..at]) + Record(c, logs[at])[..Min(part, |Record(c, logs[at])| - 1)]
  }

  /**
    RewriteWalFrom: the given entries in a new segment; the old ones are removed. The write of record
    number at fails, if there is one.
   */
  method RewriteWalFrom(c: Codec, logs: seq<Entry>, at: nat, part: nat) returns (f: File, ok: bool)
    requires AllReadable(c, logs)
    ensures fresh(f) && f.data == Rewritten(c, logs, at, part)
    ensures ok <==> at >= |logs|
  {
    f := new File();
    for i := 0 to |logs|
      invariant fresh(f) && f.data == Encode(c, logs[..i]) && i <= at
    {
      var bytes := Record(c, logs[i]);
      if i == at {
        f.data := f.data + bytes[..Min(part, |bytes| - 1)];
        return f, false;
      }
      f.data := f.data + bytes;
      EncodeSnoc(c, logs[..i], logs[i]);
      assert logs[..i + 1] == logs[..i] + [logs[i]];
    }
    assert logs[..|logs|] == logs;
    ok := true;
  }

  /** What is read back of it: the records before the failed one. */
  lemma RewrittenEntries(c: Codec, logs: seq<Entry>, at: nat, part: nat)
    requires AllReadable(c, logs)
    ensures Entries(c, Rewritten(c, logs, at, part)) == if at >= |logs| then logs else logs[..at]
  {
    if at >= |logs| {
      EncodedIsClean(c, logs);
    } else {
      var k := Min(part, |Record(c, logs[at])| - 1);
      CutRecord(c, logs[at], k);
      StopsHere(c, Record(c, logs[at])[..k]);
      ReadBack(c, logs[..at], Record(c, logs[at])[..k]);
      assert logs[..at] + [] == logs[..at];
    }
  }

  lemma {:induction false} EncodeSnoc(c: Codec, es: seq<Entry>, e: Entry)
    requires AllReadable(c, es) && Readable(c, e)
    ensures AllReadable(c, es + [e]) && Encode(c, es + [e]) == Encode(c, es) + Record(c, e)
    decreases es
  {
    hide Record, Readable;
    if es == [] {
      assert es + [e] == [e];
      assert Encode(c, [e]) == Record(c, e) + Encode(c, []);
    } else {
      EncodeSnoc(c, es[1..], e);
      assert (es + [e])[1..] == es[1..] + [e];
    }
  }

  /** The entries that a replay keeps are among those it was given. */
  lemma {:induction false} ReplayReadable(c: Codec, s: int, es: seq<Entry>)
    requires AllReadable(c, es)
    ensures AllReadable(c, Replay(s, es))
    decreases |es|
  {
    if es != [] {
      ReplayReadable(c, s, es[..|es| - 1]);
    }
  }

  /**
    CompactWal: one segment takes the place of all. It does not look at whether the rewriting succeeded.
   */
  method CompactWal(c: Codec, files: seq<File>, s: nat, at: nat, part: nat) returns (f: File)
    requires Distinct(files) && s < 0x8000_0000 && AllReadable(c, All(c, Contents(files)))
    modifies files
    ensures fresh(f)
    ensures var es := All(c, old(Contents(files))); (ReplayReadable(c, s, es); f.data == Rewritten(c, Compact(s, es), at, part))
  {
    ghost var es := All(c, Contents(files));
    var replay := ReadAll(c, files, s);
    ReplayReadable(c, s, es);
    var compacted := ReplayLogs(s, replay);
    var ok;
    f, ok := RewriteWalFrom(c, compacted, at, part);
  }

  /** Compaction cannot be told from the bytes on disk: any entries appended later are recovered alike. */
  lemma CompactedOnDisk(c: Codec, s: int, es: seq<Entry>, fs: seq<Entry>)
    requires AllReadable(c, es) && AllReadable(c, fs)
    ensures AllReadable(c, Compact(s, es))
    ensures Replay(s, Entries(c, Encode(c, Compact(s, es)) + Encode(c, fs))) == Replay(s, es + fs)
  {
    hide Replay, Encode, Scan;
    ReplayReadable(c, s, es);
    ReadBack(c, Compact(s, es), Encode(c, fs));
    EncodedIsClean(c, fs);
    CompactionInvisible(s, es, fs);
  }

  /**
    A write that fails during compaction: what is recovered afterwards is what had been written by then, so
    compaction is invisible exactly if none fails.
   */
  lemma FailedCompaction(c: Codec, s: int, es: seq<Entry>, at: nat, part: nat)
    requires AllReadable(c, es)
    ensures AllReadable(c, Compact(s, es))
    ensures var recovered := Replay(s, Entries(c, Rewritten(c, Compact(s, es), at, part)));
      && recovered == Compact(s, es)[..Min(at, |Compact(s, es)|)]
      && (recovered == Replay(s, es) <==> at >= |Compact(s, es)|)
  {
    ReplayReadable(c, s, es);
    ReplayNumbered(s, [], es);
    var logs := Compact(s, es);
    assert Numbered(logs, s);
    hide Replay, ReplayOnto, Scan, Rewritten;
    RewrittenEntries(c, logs, at, part);
    var kept := logs[..Min(at, |logs|)];
    ReplayOfLog(s, kept);
    assert logs[..|logs|] == logs;
  }
}
