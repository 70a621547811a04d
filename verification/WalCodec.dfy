/**
  The record format of a write-ahead-log segment and the reader that stops at the first torn or
  damaged record (WalEntryHeader in include/persist/Persister.h, ReadWalSegment in
  src/persist/Persister.cc). The serialisation of an entry is a parameter: any pair of functions that
  are inverse on the entries in question.
 */
module WalCodec {
  import opened Bytes
  import opened Wrappers
  import opened RaftTypes

  // ------------------------------------------------------------------ little-endian numbers

  /** The k low bytes of n, least significant first. */
  function Put(n: nat, k: nat): (bytes: seq<Byte>)
    ensures |bytes| == k
  {
    if k == 0 then [] else [n % 256] + Put(n / 256, k - 1)
  }

  function Get(bytes: seq<Byte>): nat {
    if bytes == [] then 0 else bytes[0] + 256 * Get(bytes[1..])
  }

  function Pow256(k: nat): nat {
    if k == 0 then 1 else 256 * Pow256(k - 1)
  }

  lemma {:induction false} GetPut(n: nat, k: nat)
    requires n < Pow256(k)
    ensures Get(Put(n, k)) == n
    decreases k
  {
    if k > 0 {
      GetPut(n / 256, k - 1);
      assert Put(n, k)[1..] == Put(n / 256, k - 1);
    }
  }

  lemma Widths()
    ensures Pow256(4) == 0x1_0000_0000 && Pow256(8) == 0x1_0000_0000_0000_0000
  {
    assert Pow256(2) == 65536 && Pow256(4) == 65536 * 65536;
    assert Pow256(6) == 65536 * Pow256(4) && Pow256(8) == 65536 * Pow256(6);
  }

  /** static_cast of an unsigned number to a signed 32-bit one */
  function Int32(n: nat): int {
    var low := n % 0x1_0000_0000;
    if low < 0x8000_0000 then low else low - 0x1_0000_0000
  }

  /** A signed number as the unsigned 64-bit one it converts to */
  function Uint64(n: int): nat
    requires -0x8000_0000 <= n < 0x8000_0000
  {
    if n >= 0 then n else n + 0x1_0000_0000_0000_0000
  }

  // ------------------------------------------------------------------ records

  /** How a log entry is turned into bytes and back. */
  datatype Codec = Codec(ser: Entry -> seq<Byte>, parse: seq<Byte> -> Option<Entry>)

  const HEADER := 24
  const MAX_BODY := 16 * 1024 * 1024

  /** The entries a record can hold: 32-bit fields, and a body whose size and contents survive. */
  predicate Writable(c: Codec, e: Entry) {
    && -0x8000_0000 <= e.index < 0x8000_0000 && -0x8000_0000 <= e.term < 0x8000_0000
    && |c.ser(e)| < 0x1_0000_0000
    && c.parse(c.ser(e)) == Some(e)
  }

  /** The entries whose records the reader accepts. */
  predicate Readable(c: Codec, e: Entry) {
    Writable(c, e) && 0 < |c.ser(e)| <= MAX_BODY
  }

  predicate AllReadable(c: Codec, es: seq<Entry>) {
    forall e <- es :: Readable(c, e)
  }

  /** The bytes written for a readable entry. */
  function Record(c: Codec, e: Entry): (bytes: seq<Byte>)
    requires Readable(c, e)
    ensures |bytes| == HEADER + |c.ser(e)|
  {
    Written(c, e)
  }

  /** The bytes written for an entry: index, term, size, an unused checksum, and the body. */
  function Written(c: Codec, e: Entry): (bytes: seq<Byte>)
    requires Writable(c, e)
    ensures |bytes| == HEADER + |c.ser(e)|
  {
    Put(Uint64(e.index), 8) + Put(Uint64(e.term), 8) + Put(|c.ser(e)|, 4) + Put(0, 4) + c.ser(e)
  }

  /** A segment: the records in the order in which they were appended. */
  function Encode(c: Codec, es: seq<Entry>): seq<Byte>
    requires AllReadable(c, es)
  {
    if es == [] then [] else Record(c, es[0]) + Encode(c, es[1..])
  }

  // ------------------------------------------------------------------ the reader

  /** One turn of the reading loop: the next entry, or none if the reader stops here. */
  function ReadRecord(c: Codec, bytes: seq<Byte>): (r: Option<Entry>)
    ensures r.Some? ==> HEADER < RecordSize(bytes) <= |bytes|
  {
    if |bytes| < HEADER then None else
    var size := Get(bytes[16..20]);
    if size == 0 || size > MAX_BODY || |bytes| - HEADER < size then None else
    match c.parse(bytes[HEADER..HEADER + size])
    case None => None
    case Some(e) =>
      if e.index != Int32(Get(bytes[..8])) || e.term != Int32(Get(bytes[8..16])) then None else Some(e)
  }

  function RecordSize(bytes: seq<Byte>): nat {
    if |bytes| < HEADER then 0 else HEADER + Get(bytes[16..20])
  }

  /** The whole loop: the entries read, and the offset at which the segment is cut off. */
  function Scan(c: Codec, bytes: seq<Byte>): (r: (seq<Entry>, nat))
    ensures r.1 <= |bytes|
    decreases |bytes|
  {
    match ReadRecord(c, bytes)
    case None => ([], 0)
    case Some(e) =>
      var size := RecordSize(bytes);
      var (es, valid) := Scan(c, bytes[size..]);
      ([e] + es, size + valid)
  }

  function Entries(c: Codec, bytes: seq<Byte>): seq<Entry> {
    Scan(c, bytes).0
  }

  function ValidLength(c: Codec, bytes: seq<Byte>): (n: nat)
    ensures n <= |bytes|
  {
    Scan(c, bytes).1
  }

  // ------------------------------------------------------------------ reading back

  lemma SignedRoundTrip(n: int)
    requires -0x8000_0000 <= n < 0x8000_0000
    ensures Int32(Uint64(n)) == n && Uint64(n) < 0x1_0000_0000_0000_0000
  {}

  lemma Fields(a: seq<Byte>, b: seq<Byte>, d: seq<Byte>, z: seq<Byte>, body: seq<Byte>, rest: seq<Byte>)
    requires |a| == 8 && |b| == 8 && |d| == 4 && |z| == 4
    ensures var bytes := a + b + d + z + body + rest;
      && bytes[..8] == a && bytes[8..16] == b && bytes[16..20] == d && bytes[24..24 + |body|] == body
      && bytes[24 + |body|..] == rest
  {}

  lemma RecordParts(c: Codec, e: Entry, rest: seq<Byte>)
    requires Writable(c, e)
    ensures var bytes := Written(c, e) + rest;
      && bytes[..8] == Put(Uint64(e.index), 8) && bytes[8..16] == Put(Uint64(e.term), 8)
      && bytes[16..20] == Put(|c.ser(e)|, 4) && bytes[HEADER..HEADER + |c.ser(e)|] == c.ser(e)
      && bytes[|Written(c, e)|..] == rest
  {
    hide Put;
    Fields(Put(Uint64(e.index), 8), Put(Uint64(e.term), 8), Put(|c.ser(e)|, 4), Put(0, 4), c.ser(e), rest);
  }

  /** A whole record is read as the entry it was written for, whatever follows it. */
  lemma ReadBackOne(c: Codec, e: Entry, rest: seq<Byte>)
    requires Readable(c, e)
    ensures ReadRecord(c, Record(c, e) + rest) == Some(e)
    ensures RecordSize(Record(c, e) + rest) == |Record(c, e)|
    ensures Scan(c, Record(c, e) + rest) == ([e] + Entries(c, rest), |Record(c, e)| + ValidLength(c, rest))
  {
    hide Written, Put, Get, Pow256;
    RecordParts(c, e, rest);
    Widths();
    SignedRoundTrip(e.index);
    SignedRoundTrip(e.term);
    GetPut(Uint64(e.index), 8);
    GetPut(Uint64(e.term), 8);
    GetPut(|c.ser(e)|, 4);
  }

  /** The reader accepts exactly the bodies of 1 byte to 16 MiB; any other record ends the segment for good. */
  lemma ReadBackExact(c: Codec, e: Entry, rest: seq<Byte>)
    requires Writable(c, e)
    ensures ReadRecord(c, Written(c, e) + rest) == Some(e) <==> 0 < |c.ser(e)| <= 16 * 1024 * 1024
    ensures !Readable(c, e) ==> Scan(c, Written(c, e) + rest) == ([], 0)
  {
    if Readable(c, e) {
      ReadBackOne(c, e, rest);
    } else {
      hide Written, Put, Get, Pow256;
      RecordParts(c, e, rest);
      Widths();
      GetPut(|c.ser(e)|, 4);
    }
  }

  /** A record whose header does not name the index and the term of its entry is refused. */
  lemma HeaderExact(c: Codec, e: Entry, i: nat, t: nat, rest: seq<Byte>)
    requires Readable(c, e) && i < 0x1_0000_0000_0000_0000 && t < 0x1_0000_0000_0000_0000
    ensures var bytes := Put(i, 8) + Put(t, 8) + Put(|c.ser(e)|, 4) + Put(0, 4) + c.ser(e) + rest;
      ReadRecord(c, bytes) == if Int32(i) == e.index && Int32(t) == e.term then Some(e) else None
  {
    Widths();
    GetPut(i, 8);
    GetPut(t, 8);
    GetPut(|c.ser(e)|, 4);
    hide Put, Get, Pow256;
    Fields(Put(i, 8), Put(t, 8), Put(|c.ser(e)|, 4), Put(0, 4), c.ser(e), rest);
  }

  /** Reading a segment of whole records gives the entries, and cuts nothing off. */
  lemma {:induction false} ReadBack(c: Codec, es: seq<Entry>, rest: seq<Byte>)
    requires AllReadable(c, es)
    ensures Scan(c, Encode(c, es) + rest) == (es + Entries(c, rest), |Encode(c, es)| + ValidLength(c, rest))
    decreases es
  {
    hide Record, Scan, Readable;
    if es == [] {
      assert Encode(c, es) + rest == rest && es + Entries(c, rest) == Entries(c, rest);
    } else {
      ReadBack(c, es[1..], rest);
      ReadBackOne(c, es[0], Encode(c, es[1..]) + rest);
      assert Encode(c, es) + rest == Record(c, es[0]) + (Encode(c, es[1..]) + rest);
      assert es + Entries(c, rest) == [es[0]] + (es[1..] + Entries(c, rest));
    }
  }

  lemma NothingToRead(c: Codec)
    ensures Scan(c, []) == ([], 0)
  {}

  lemma EncodedIsClean(c: Codec, es: seq<Entry>)
    requires AllReadable(c, es)
    ensures Scan(c, Encode(c, es)) == (es, |Encode(c, es)|)
  {
    hide Encode, AllReadable, Scan;
    ReadBack(c, es, []);
    assert Encode(c, es) + [] == Encode(c, es);
    NothingToRead(c);
    assert es + [] == es;
  }

  // ------------------------------------------------------------------ torn tails

  /** A record cut short is not read. */
  lemma CutRecord(c: Codec, e: Entry, k: nat)
    requires Readable(c, e) && k < |Record(c, e)|
    ensures ReadRecord(c, Record(c, e)[..k]) == None
  {
    hide Written, Put, Get, Pow256;
    RecordParts(c, e, []);
    assert Record(c, e) + [] == Record(c, e);
    if k >= HEADER {
      assert Record(c, e)[..k][16..20] == Record(c, e)[16..20];
      Widths();
      GetPut(|c.ser(e)|, 4);
    }
  }

  /** How many whole records lie within the first k bytes. */
  function Whole(c: Codec, es: seq<Entry>, k: nat): (m: nat)
    requires AllReadable(c, es)
    ensures m <= |es|
    decreases es
  {
    if es == [] || k < |Record(c, es[0])| then 0 else 1 + Whole(c, es[1..], k - |Record(c, es[0])|)
  }

  /** It is the longest prefix that fits. */
  lemma {:induction false} WholeIsLongest(c: Codec, es: seq<Entry>, k: nat, m: nat)
    requires AllReadable(c, es) && m <= |es|
    ensures |Encode(c, es[..m])| <= k <==> m <= Whole(c, es, k)
    decreases es
  {
    hide Record, Readable;
    if es != [] && m > 0 {
      assert es[..m][1..] == es[1..][..m - 1];
      assert Encode(c, es[..m]) == Record(c, es[0]) + Encode(c, es[1..][..m - 1]);
      if k >= |Record(c, es[0])| {
        WholeIsLongest(c, es[1..], k - |Record(c, es[0])|, m - 1);
      }
    }
  }

  /**
    Torn-tail recovery: wherever a segment of whole records is cut, the reader yields exactly the longest
    prefix of whole records, and cuts the segment off behind them.
   */
  lemma {:induction false} TornTail(c: Codec, es: seq<Entry>, k: nat)
    requires AllReadable(c, es) && k <= |Encode(c, es)|
    ensures var m := Whole(c, es, k);
      Scan(c, Encode(c, es)[..k]) == (es[..m], |Encode(c, es[..m])|)
    decreases es
  {
    hide Record, Scan, Readable, RecordSize, ReadRecord, Encode;
    if es == [] {
      NothingEncoded(c);
      NothingToRead(c);
    } else {
      EncodeFirst(c, es);
      var r := |Record(c, es[0])|;
      if k < r {
        assert Encode(c, es)[..k] == Record(c, es[0])[..k];
        CutRecord(c, es[0], k);
        NothingEncoded(c);
        assert es[..0] == [];
        StopsHere(c, Record(c, es[0])[..k]);
      } else {
        TornTail(c, es[1..], k - r);
        var m := Whole(c, es[1..], k - r);
        ReadBackOne(c, es[0], Encode(c, es[1..])[..k - r]);
        assert Encode(c, es)[..k] == Record(c, es[0]) + Encode(c, es[1..])[..k - r];
        EncodeFirst(c, es[..m + 1]);
        assert es[..m + 1][1..] == es[1..][..m] && [es[0]] + es[1..][..m] == es[..m + 1];
      }
    }
  }

  lemma NothingEncoded(c: Codec)
    ensures AllReadable(c, []) && Encode(c, []) == []
  {}

  lemma StopsHere(c: Codec, bytes: seq<Byte>)
    requires ReadRecord(c, bytes).None?
    ensures Scan(c, bytes) == ([], 0)
  {}

  lemma EncodeFirst(c: Codec, es: seq<Entry>)
    requires AllReadable(c, es) && es != []
    ensures AllReadable(c, es[1..]) && Encode(c, es) == Record(c, es[0]) + Encode(c, es[1..])
  {}

  // ------------------------------------------------------------------ arbitrary files

  /** The reader looks no further than the record it returns. */
  lemma ReadLocal(c: Codec, bytes: seq<Byte>, other: seq<Byte>)
    requires ReadRecord(c, bytes).Some?
    ensures var size := RecordSize(bytes);
      |other| >= size && other[..size] == bytes[..size] ==>
        ReadRecord(c, other) == ReadRecord(c, bytes) && RecordSize(other) == size
  {
    hide Get, Int32;
    var size := RecordSize(bytes);
    if |other| >= size && other[..size] == bytes[..size] {
      assert other[..8] == other[..size][..8] == bytes[..8];
      assert other[8..16] == other[..size][8..16] == bytes[8..16];
      assert other[16..20] == other[..size][16..20] == bytes[16..20];
      assert other[HEADER..size] == other[..size][HEADER..size] == bytes[HEADER..size];
    }
  }

  /** Whatever a file holds, what is appended after the cut is read back behind what was read before. */
  lemma {:induction false} AppendAfterCut(c: Codec, bytes: seq<Byte>, rest: seq<Byte>)
    ensures var (es, valid) := Scan(c, bytes);
      Scan(c, bytes[..valid] + rest) == (es + Entries(c, rest), valid + ValidLength(c, rest))
    decreases |bytes|
  {
    hide ReadRecord, RecordSize;
    var (es, valid) := Scan(c, bytes);
    if ReadRecord(c, bytes).None? {
      assert bytes[..valid] + rest == rest && es + Entries(c, rest) == Entries(c, rest);
    } else {
      var size := RecordSize(bytes);
      var e := ReadRecord(c, bytes).value;
      var tail := bytes[size..];
      AppendAfterCut(c, tail, rest);
      var (fs, more) := Scan(c, tail);
      var file := bytes[..valid] + rest;
      ReadLocal(c, bytes, file);
      assert file[..size] == bytes[..size];
      assert file[size..] == tail[..more] + rest;
      assert es + Entries(c, rest) == [e] + (fs + Entries(c, rest));
    }
  }

  /** A file cut by the reader is read again in full. */
  lemma CutIsClean(c: Codec, bytes: seq<Byte>)
    ensures var (es, valid) := Scan(c, bytes);
      Scan(c, bytes[..valid]) == (es, valid)
  {
    var (es, valid) := Scan(c, bytes);
    AppendAfterCut(c, bytes, []);
    assert bytes[..valid] + [] == bytes[..valid];
    assert Scan(c, []) == ([], 0);
    assert es + [] == es;
  }

  /** Records appended after recovery are read back after the recovered ones, for every file found on disk. */
  lemma RecoveredThenAppended(c: Codec, bytes: seq<Byte>, fs: seq<Entry>)
    requires AllReadable(c, fs)
    ensures var (es, valid) := Scan(c, bytes);
      Scan(c, bytes[..valid] + Encode(c, fs)) == (es + fs, valid + |Encode(c, fs)|)
  {
    hide Scan, Encode, AllReadable;
    AppendAfterCut(c, bytes, Encode(c, fs));
    EncodedIsClean(c, fs);
  }

  /** More bytes of the same file never lose a record. */
  lemma {:induction false} ScanGrows(c: Codec, bytes: seq<Byte>, k: nat)
    requires k <= |bytes|
    ensures Entries(c, bytes[..k]) <= Entries(c, bytes) && ValidLength(c, bytes[..k]) <= ValidLength(c, bytes)
    decreases k
  {
    hide ReadRecord, RecordSize;
    var cut := bytes[..k];
    if ReadRecord(c, cut).Some? {
      var size := RecordSize(cut);
      ReadLocal(c, cut, bytes);
      assert bytes[..size] == cut[..size];
      assert cut[size..] == bytes[size..][..k - size];
      ScanGrows(c, bytes[size..], k - size);
    }
  }
}
