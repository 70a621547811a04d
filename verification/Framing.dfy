/**
  Length-prefixed frames over a byte stream: the Base 128 varint of the Protocol Buffers encoding
  (include/rpc/rpcprovider.h, include/rpc/MrpcchannelMultiReq.h) and the loop that takes frames out of a
  connection's buffer (OnMessage in src/rpc/rpcprovider.cc). Bits are written as arithmetic: b & 0x7f is
  b % 128, a shift by 7 * i is a multiplication by 128^i, and an or of disjoint bits is a sum.
 */
module Framing {
  import opened Bytes

  const U32 := 0x1_0000_0000
  const MAX_FRAME := 16 * 1024 * 1024

  datatype Varint = Ok(value: nat, length: nat) | NeedMore | BadFormat

  // ------------------------------------------------------------------ varints

  function Pow128(i: nat): (p: nat)
    ensures p > 0
  {
    if i == 0 then 1 else 128 * Pow128(i - 1)
  }

  /** appendVarint32 */
  function Encode(value: nat): (bytes: seq<Byte>)
    ensures |bytes| > 0
  {
    if value >= 128 then [value % 128 + 128] + Encode(value / 128) else [value]
  }

  /** What byte i adds: its low seven bits, shifted within 32 bits. */
  function Part(b: Byte, i: nat): nat {
    (b % 128) * Pow128(i) % U32
  }

  /** The reading loop from byte i on. */
  function ReadFrom(data: seq<Byte>, i: nat, result: nat): Varint
    decreases 5 - i
  {
    if i < |data| && i < 5 then
      var r := result + Part(data[i], i);
      if data[i] < 128 then Ok(r, i + 1) else ReadFrom(data, i + 1, r)
    else if |data| < 5 then NeedMore
    else BadFormat
  }

  function TryRead(data: seq<Byte>): Varint {
    ReadFrom(data, 0, 0)
  }

  method AppendVarint32(value: nat, out: seq<Byte>) returns (r: seq<Byte>)
    requires value < U32
    ensures r == out + Encode(value)
  {
    r := out;
    var v := value;
    while v >= 128
      invariant r + Encode(v) == out + Encode(value)
    {
      assert r + ([v % 128 + 128] + Encode(v / 128)) == (r + [v % 128 + 128]) + Encode(v / 128);
      r := r + [v % 128 + 128];
      v := v / 128;
    }
    r := r + [v];
  }

  method TryReadVarint32(data: seq<Byte>) returns (r: Varint)
    ensures r == TryRead(data)
  {
    var result: nat, i, shift := 0, 0, 1;
    while i < |data| && i < 5
      invariant 0 <= i <= |data| && i <= 5 && shift == Pow128(i)
      invariant TryRead(data) == ReadFrom(data, i, result)
      decreases 5 - i
    {
      result := result + (data[i] % 128) * shift % U32;
      if data[i] < 128 {
        return Ok(result, i + 1);
      }
      i, shift := i + 1, 128 * shift;
    }
    r := if |data| < 5 then NeedMore else BadFormat;
  }

  /** recvVarint32 takes its bytes from the stream one by one; it fails where more would be needed. */
  method RecvVarint32(stream: seq<Byte>) returns (ok: bool, value: nat, taken: nat)
    ensures ok <==> TryRead(stream).Ok?
    ensures ok ==> TryRead(stream) == Ok(value, taken)
  {
    value, taken, ok := 0, 0, false;
    var power := 1;
    while taken < 5
      invariant 0 <= taken <= 5 && taken <= |stream| && power == Pow128(taken)
      invariant TryRead(stream) == ReadFrom(stream, taken, value)
    {
      if taken == |stream| {
        return;
      }
      var byte := stream[taken];
      value := value + (byte % 128) * power % U32;
      taken, power := taken + 1, 128 * power;
      if byte < 128 {
        ok := true;
        return;
      }
    }
  }

  // ------------------------------------------------------------------ decoding inverts encoding

  lemma Powers()
    ensures Pow128(0) == 1 && Pow128(1) == 128 && Pow128(2) == 128 * 128 && Pow128(3) == 128 * 128 * 128
    ensures Pow128(4) == 128 * 128 * 128 * 128
  {
    assert Pow128(2) == 128 * Pow128(1) && Pow128(3) == 128 * Pow128(2) && Pow128(4) == 128 * Pow128(3);
  }

  lemma LastPart(v: nat, i: nat)
    requires v < 128 && v * Pow128(i) < U32
    ensures Part(v, i) == v * Pow128(i)
  {}

  lemma NextPart(v: nat, i: nat)
    requires v >= 128 && i < 5 && v * Pow128(i) < U32
    ensures i < 4 && Part(v % 128 + 128, i) == (v % 128) * Pow128(i)
    ensures (v / 128) * Pow128(i + 1) < U32
    ensures Part(v % 128 + 128, i) + (v / 128) * Pow128(i + 1) == v * Pow128(i)
  {
    Powers();
    assert Pow128(i + 1) == 128 * Pow128(i);
    Carry(v, Pow128(i));
    assert (v % 128 + 128) % 128 == v % 128;
  }

  /** A value with room for i more groups of seven bits is read back at byte i. */
  lemma {:induction false} ReadEncoded(data: seq<Byte>, i: nat, v: nat, result: nat)
    requires i < 5 && v * Pow128(i) < U32 && i <= |data| && Encode(v) <= data[i..]
    ensures ReadFrom(data, i, result) == Ok(result + v * Pow128(i), i + |Encode(v)|) && i + |Encode(v)| <= 5
    decreases v
  {
    hide Pow128, Part;
    assert data[i] == Encode(v)[0];
    if v >= 128 {
      NextPart(v, i);
      assert data[i + 1..] == data[i..][1..] && Encode(v)[1..] == Encode(v / 128);
      ReadEncoded(data, i + 1, v / 128, result + Part(data[i], i));
    } else {
      LastPart(v, i);
    }
  }

  lemma Carry(v: nat, p: nat)
    requires v * p < U32
    ensures (v / 128) * (128 * p) <= v * p < U32
    ensures (v % 128) * p < U32
    ensures (v % 128) * p + (v / 128) * (128 * p) == v * p
  {
    assert v == 128 * (v / 128) + v % 128;
    assert v * p == (128 * (v / 128)) * p + (v % 128) * p;
  }

  /** Decoding inverts encoding for every 32-bit value, whatever follows it. */
  lemma RoundTrip(v: nat, rest: seq<Byte>)
    requires v < U32
    ensures TryRead(Encode(v) + rest) == Ok(v, |Encode(v)|) && 1 <= |Encode(v)| <= 5
  {
    var data := Encode(v) + rest;
    assert data[0..] == data;
    ReadEncoded(data, 0, v, 0);
  }

  /** The encoding is made of bytes with the high bit set, but for the last. */
  lemma {:induction false} HighBits(v: nat, k: nat)
    requires k < |Encode(v)|
    ensures Encode(v)[k] >= 128 <==> k < |Encode(v)| - 1
    decreases v
  {
    if v >= 128 && k > 0 {
      HighBits(v / 128, k - 1);
      assert Encode(v)[k] == Encode(v / 128)[k - 1];
    }
  }

  lemma {:induction false} HighBitsNeedMore(data: seq<Byte>, i: nat, result: nat)
    requires i <= |data| < 5 && forall k :: i <= k < |data| ==> data[k] >= 128
    ensures ReadFrom(data, i, result) == NeedMore
    decreases |data| - i
  {
    if i < |data| {
      HighBitsNeedMore(data, i + 1, result + Part(data[i], i));
    }
  }

  /** Every proper prefix of an encoding asks for more. */
  lemma PrefixNeedsMore(v: nat, k: nat)
    requires v < U32 && k < |Encode(v)|
    ensures TryRead(Encode(v)[..k]) == NeedMore
  {
    RoundTrip(v, []);
    var data := Encode(v)[..k];
    forall j | 0 <= j < k ensures data[j] >= 128 {
      HighBits(v, j);
    }
    HighBitsNeedMore(data, 0, 0);
  }

  /** More bytes never change a result. */
  lemma {:induction false} ReadStable(data: seq<Byte>, more: seq<Byte>, i: nat, result: nat)
    ensures !ReadFrom(data, i, result).NeedMore? ==>
      ReadFrom(data + more, i, result) == ReadFrom(data, i, result)
    ensures ReadFrom(data, i, result).Ok? ==> i < ReadFrom(data, i, result).length <= |data|
    decreases 5 - i
  {
    hide Part;
    if i < |data| && i < 5 {
      ReadStable(data, more, i + 1, result + Part(data[i], i));
    }
  }

  // ------------------------------------------------------------------ frames

  /** Which frame bodies parse, and which of these name a known method with a request that parses too. */
  datatype Provider = Provider(parses: seq<Byte> -> bool, serves: seq<Byte> -> bool)

  /** What is at the front of a buffer: part of a frame, an impossible length, or a whole frame. */
  datatype Front = Partial | Impossible | Frame(body: seq<Byte>, rest: seq<Byte>)

  function FrontOf(buf: seq<Byte>): (f: Front)
    ensures f.Frame? ==> |f.rest| < |buf|
  {
    match TryRead(buf)
    case NeedMore => Partial
    case BadFormat => Impossible
    case Ok(size, len) =>
      ReadStable(buf, [], 0, 0);
      if size == 0 || size > MAX_FRAME then Impossible
      else if |buf| < len + size then Partial
      else Frame(buf[len..len + size], buf[len + size..])
  }

  /**
    A length is impossible exactly if it is zero or above 16 MiB, or takes more than five bytes; otherwise a
    frame is there exactly if as many bytes as it says have arrived behind it.
   */
  lemma FrontExact(v: nat, rest: seq<Byte>)
    requires v < U32
    ensures match FrontOf(Encode(v) + rest)
      case Impossible => v == 0 || v > 16 * 1024 * 1024
      case Partial => 0 < v <= 16 * 1024 * 1024 && |rest| < v
      case Frame(body, behind) => 0 < v <= 16 * 1024 * 1024 && |rest| >= v && body == rest[..v] && behind == rest[v..]
  {
    RoundTrip(v, rest);
    var data, n := Encode(v) + rest, |Encode(v)|;
    if 0 < v <= |rest| {
      assert data[n..n + v] == rest[..v] && data[n + v..] == rest[v..];
    }
    hide TryRead, Encode;
  }

  lemma EndlessLength(rest: seq<Byte>)
    requires |rest| >= 5 && forall i :: 0 <= i < 5 ==> rest[i] >= 128
    ensures FrontOf(rest) == Impossible
  {
    NoEnd(rest, 0, 0);
  }

  lemma {:induction false} NoEnd(data: seq<Byte>, i: nat, result: nat)
    requires i <= 5 <= |data| && forall j :: 0 <= j < 5 ==> data[j] >= 128
    ensures ReadFrom(data, i, result) == BadFormat
    decreases 5 - i
  {
    if i < 5 {
      NoEnd(data, i + 1, result + Part(data[i], i));
    }
  }

  /** What a call of OnMessage does: the frames it dispatches, what it leaves, and whether it shuts down. */
  datatype Drained = Drained(frames: seq<seq<Byte>>, rest: seq<Byte>, shut: bool)

  function Drain(p: Provider, buf: seq<Byte>): (d: Drained)
    decreases |buf|
  {
    match FrontOf(buf)
    case Partial => Drained([], buf, false)
    case Impossible => Drained([], buf, true)
    case Frame(body, rest) =>
      if !p.parses(body) then Drained([], rest, true) else Dispatch(p, body, Drain(p, rest))
  }

  /** A frame that cannot be served is passed over. */
  function Dispatch(p: Provider, body: seq<Byte>, d: Drained): Drained {
    Drained(Served(p, [body]) + d.frames, d.rest, d.shut)
  }

  function Served(p: Provider, frames: seq<seq<Byte>>): seq<seq<Byte>> {
    if frames == [] then []
    else (if p.serves(frames[0]) then [frames[0]] else []) + Served(p, frames[1..])
  }

  lemma ServedOne(p: Provider, f: seq<Byte>)
    ensures Served(p, [f]) == if p.serves(f) then [f] else []
  {}

  class Buffer {
    var data: seq<Byte>
    var shut: bool

    constructor ()
      ensures data == [] && !shut
    {
      data, shut := [], false;
    }

    /** One turn of the loop: the frame at the front is taken out of the buffer. */
    method TakeFront() returns (f: Front)
      modifies this`data
      ensures f == FrontOf(old(data)) && data == if f.Frame? then f.rest else old(data)
    {
      hide ReadFrom;
      var v := TryReadVarint32(data);
      ReadStable(data, [], 0, 0);
      if v.NeedMore? {
        return Partial;
      }
      if v.BadFormat? || v.value == 0 || v.value > MAX_FRAME {
        return Impossible;
      }
      if |data| < v.length + v.value {
        return Partial;
      }
      f := Frame(data[v.length..v.length + v.value], data[v.length + v.value..]);
      data := f.rest;
    }

    /** OnMessage, when chunk has just been read into the buffer. */
    method OnMessage(p: Provider, chunk: seq<Byte>) returns (frames: seq<seq<Byte>>)
      modifies this
      ensures var d := Drain(p, old(data) + chunk);
        frames == d.frames && data == d.rest && shut == (old(shut) || d.shut)
    {
      hide FrontOf;
      data := data + chunk;
      frames := [];
      ghost var d := Drain(p, data);
      assert [] + d.frames == d.frames;
      while true
        invariant d.frames == frames + Drain(p, data).frames
        invariant d.rest == Drain(p, data).rest && d.shut == Drain(p, data).shut && shut == old(shut)
        decreases |data|
      {
        ghost var before := Drain(p, data);
        var f := TakeFront();
        if f.Partial? {
          assert frames + [] == frames;
          return;
        }
        if f.Impossible? || !p.parses(f.body) {
          assert frames + [] == frames;
          shut := true;
          return;
        }
        ServedOne(p, f.body);
        assert frames + ([f.body] + Drain(p, data).frames) == (frames + [f.body]) + Drain(p, data).frames;
        assert [] + Drain(p, data).frames == Drain(p, data).frames;
        if p.serves(f.body) {
          frames := frames + [f.body];
        }
      }
    }
  }

  // ------------------------------------------------------------------ chunking

  /** What is at the front stays there when more bytes follow. */
  lemma FrontStable(a: seq<Byte>, b: seq<Byte>)
    ensures FrontOf(a).Impossible? ==> FrontOf(a + b).Impossible?
    ensures FrontOf(a).Frame? ==> FrontOf(a + b) == Frame(FrontOf(a).body, FrontOf(a).rest + b)
  {
    hide ReadFrom;
    ReadStable(a, b, 0, 0);
    var v := TryRead(a);
    if v.Ok? && |a| >= v.length + v.value {
      var n := v.length + v.value;
      assert (a + b)[v.length..n] == a[v.length..n] && (a + b)[n..] == a[n..] + b;
    }
  }

  /** Draining a longer stream starts with draining its beginning. */
  lemma {:induction false} DrainConcat(p: Provider, a: seq<Byte>, b: seq<Byte>)
    ensures var d, e := Drain(p, a), Drain(p, a + b);
      if d.shut then e == Drained(d.frames, d.rest + b, true)
      else var f := Drain(p, d.rest + b); e == Drained(d.frames + f.frames, f.rest, f.shut)
    decreases |a|
  {
    hide FrontOf;
    FrontStable(a, b);
    var e := Drain(p, a + b);
    match FrontOf(a)
    case Partial => assert [] + e.frames == e.frames;
    case Impossible =>
    case Frame(body, rest) =>
      if p.parses(body) {
        DrainConcat(p, rest, b);
        var d := Drain(p, rest);
        DispatchConcat(p, body, d, Drain(p, d.rest + b));
      }
  }

  lemma DispatchConcat(p: Provider, body: seq<Byte>, d: Drained, f: Drained)
    ensures Dispatch(p, body, Drained(d.frames + f.frames, f.rest, f.shut))
            == Drained(Dispatch(p, body, d).frames + f.frames, f.rest, f.shut)
  {
    hide Served;
    assert Served(p, [body]) + (d.frames + f.frames) == (Served(p, [body]) + d.frames) + f.frames;
  }

  /** Several reads, one after the other. */
  function Feed(p: Provider, buf: seq<Byte>, chunks: seq<seq<Byte>>): (seq<seq<Byte>>, seq<Byte>)
    decreases |chunks|
  {
    if chunks == [] then ([], buf)
    else
      var (frames, rest) := Feed(p, buf, chunks[..|chunks| - 1]);
      var d := Drain(p, rest + chunks[|chunks| - 1]);
      (frames + d.frames, d.rest)
  }

  function Joined(chunks: seq<seq<Byte>>): seq<Byte>
    decreases |chunks|
  {
    if chunks == [] then [] else Joined(chunks[..|chunks| - 1]) + chunks[|chunks| - 1]
  }

  /** The whole frames a stream begins with, whether they parse or not. */
  function WholeFrames(data: seq<Byte>): seq<seq<Byte>>
    decreases |data|
  {
    match FrontOf(data)
    case Frame(body, rest) => [body] + WholeFrames(rest)
    case _ => []
  }

  /** All frames but the last parse. */
  ghost predicate Undisturbed(p: Provider, frames: seq<seq<Byte>>) {
    forall i :: 0 <= i < |frames| - 1 ==> p.parses(frames[i])
  }

  lemma UndisturbedNext(p: Provider, body: seq<Byte>, frames: seq<seq<Byte>>)
    ensures Undisturbed(p, [body] + frames) <==> frames == [] || (p.parses(body) && Undisturbed(p, frames))
  {
    var all := [body] + frames;
    if Undisturbed(p, all) && frames != [] {
      assert p.parses(all[0]);
      forall i | 0 <= i < |frames| - 1 ensures p.parses(frames[i]) {
        assert p.parses(all[i + 1]);
      }
    }
  }

  /** One read leaves a whole frame in the buffer exactly if it has one behind a frame that does not parse. */
  lemma {:induction false} LeavesFrameExact(p: Provider, data: seq<Byte>)
    ensures FrontOf(Drain(p, data).rest).Frame? <==> !Undisturbed(p, WholeFrames(data))
    decreases |data|
  {
    hide FrontOf, Undisturbed;
    match FrontOf(data)
    case Frame(body, rest) =>
      UndisturbedNext(p, body, WholeFrames(rest));
      if p.parses(body) {
        LeavesFrameExact(p, rest);
        if WholeFrames(rest) == [] {
          NoneUndisturbed(p);
        }
      }
    case _ => NoneUndisturbed(p);
  }

  lemma NoneUndisturbed(p: Provider)
    ensures Undisturbed(p, [])
  {}

  /**
    Framing does not depend on chunking: however a stream without a frame behind one that does not parse is
    cut into reads, the same frames are dispatched and the same bytes left over.
   */
  lemma {:induction false} ChunksDoNotMatter(p: Provider, chunks: seq<seq<Byte>>)
    requires Undisturbed(p, WholeFrames(Joined(chunks)))
    ensures var d := Drain(p, Joined(chunks)); Feed(p, [], chunks) == (d.frames, d.rest)
    decreases |chunks|
  {
    hide FrontOf, Undisturbed, WholeFrames;
    LeavesFrameExact(p, Joined(chunks));
    if chunks != [] {
      var before, last := chunks[..|chunks| - 1], chunks[|chunks| - 1];
      LeavesFrameExact(p, Joined(before));
      var d := Drain(p, Joined(before));
      DrainConcat(p, Joined(before), last);
      FrontStable(d.rest, last);
      LeftPartial(p, Joined(before));
      ChunksDoNotMatter(p, before);
      assert d.frames + [] == d.frames;
    } else {
      NothingInFront();
    }
  }

  /** What is left when the connection stays open begins with part of a frame. */
  lemma {:induction false} LeftPartial(p: Provider, a: seq<Byte>)
    ensures !Drain(p, a).shut ==> FrontOf(Drain(p, a).rest).Partial?
    decreases |a|
  {
    hide FrontOf;
    match FrontOf(a)
    case Frame(body, rest) => if p.parses(body) { LeftPartial(p, rest); }
    case _ =>
  }

  /** A number that is not complete yet ends behind the bytes read so far. */
  lemma {:induction false} ReadShort(data: seq<Byte>, more: seq<Byte>, i: nat, result: nat)
    requires i <= |data| && ReadFrom(data, i, result).NeedMore? && ReadFrom(data + more, i, result).Ok?
    ensures ReadFrom(data + more, i, result).length > |data|
    decreases 5 - i
  {
    if i < |data| && i < 5 {
      ReadShort(data, more, i + 1, result + Part(data[i], i));
    } else {
      ReadStable(data + more, [], i, result);
    }
  }

  /** A frame at the front of a stream is at the front of every beginning that holds it whole. */
  lemma FrontBack(a: seq<Byte>, b: seq<Byte>)
    requires FrontOf(a + b).Frame? && |b| <= |FrontOf(a + b).rest|
    ensures var f := FrontOf(a + b); FrontOf(a) == Frame(f.body, f.rest[..|f.rest| - |b|])
  {
    hide ReadFrom;
    var v := TryRead(a + b);
    var n := v.length + v.value;
    ReadStable(a, b, 0, 0);
    ReadStable(a + b, [], 0, 0);
    if TryRead(a).NeedMore? {
      ReadShort(a, b, 0, 0);
    }
    assert (a + b)[v.length..n] == a[v.length..n];
    assert (a + b)[n..][..|(a + b)[n..]| - |b|] == a[n..];
  }

  /** Where draining stopped with a whole frame left, it had just thrown one away. */
  lemma {:induction false} StoppedBetween(p: Provider, data: seq<Byte>)
    requires FrontOf(Drain(p, data).rest).Frame?
    ensures var d := Drain(p, data);
      var k := |data| - |d.rest|;
      0 <= k && data[k..] == d.rest && Drain(p, data[..k]) == Drained(d.frames, [], true)
    decreases |data|
  {
    var d := Drain(p, data);
    var f, k := FrontOf(data), |data| - |d.rest|;
    FrontIsPrefix(data);
    hide FrontOf;
    if p.parses(f.body) {
      StoppedBetween(p, f.rest);
    }
    assert data[..k] + data[k..] == data;
    FrontBack(data[..k], data[k..]);
    NothingInFront();
  }

  lemma FrontIsPrefix(data: seq<Byte>)
    ensures FrontOf(data).Frame? ==> |FrontOf(data).rest| <= |data| && FrontOf(data).rest == data[|data| - |FrontOf(data).rest|..]
  {}

  /** However this stream is cut into reads, what is dispatched and left is what one read would give. */
  ghost predicate CutAnyhow(p: Provider, data: seq<Byte>) {
    forall chunks: seq<seq<Byte>> {:trigger Joined(chunks)} :: Joined(chunks) == data ==>
      Feed(p, [], chunks) == (Drain(p, data).frames, Drain(p, data).rest)
  }

  lemma CutExact(p: Provider, data: seq<Byte>)
    ensures CutAnyhow(p, data) <==> !FrontOf(Drain(p, data).rest).Frame?
  {
    hide FrontOf, Drain, Undisturbed, WholeFrames;
    var d := Drain(p, data);
    if FrontOf(d.rest).Frame? {
      StoppedBetween(p, data);
      var k := |data| - |d.rest|;
      TwoReads(p, data[..k], d.rest);
      FrontTaken(p, d.rest);
      var chunks: seq<seq<Byte>> := [data[..k], d.rest];
      assert data[..k] + d.rest == data && [] + d.rest == d.rest;
      assert Joined(chunks) == data && Feed(p, [], chunks).1 != d.rest;
    } else {
      forall chunks: seq<seq<Byte>> | Joined(chunks) == data
        ensures Feed(p, [], chunks) == (d.frames, d.rest)
      {
        LeavesFrameExact(p, data);
        ChunksDoNotMatter(p, chunks);
      }
    }
  }

  /**
    The cutting never matters exactly if every whole frame of the stream but the last one parses: behind a
    frame that does not, a read dispatches nothing more, and a cut there has the next frame dispatched.
   */
  lemma ChunksExact(p: Provider, data: seq<Byte>)
    ensures CutAnyhow(p, data) <==>
      forall i :: 0 <= i < |WholeFrames(data)| - 1 ==> p.parses(WholeFrames(data)[i])
  {
    hide CutAnyhow, FrontOf, Drain, WholeFrames;
    CutExact(p, data);
    LeavesFrameExact(p, data);
  }

  lemma FeedNext(p: Provider, chunks: seq<seq<Byte>>, b: seq<Byte>)
    ensures Joined(chunks + [b]) == Joined(chunks) + b
    ensures var (frames, rest) := Feed(p, [], chunks);
      Feed(p, [], chunks + [b]) == (frames + Drain(p, rest + b).frames, Drain(p, rest + b).rest)
  {
    assert (chunks + [b])[..|chunks + [b]| - 1] == chunks;
  }

  lemma FeedNothing(p: Provider)
    ensures Joined([]) == [] && Feed(p, [], []) == ([], [])
  {}

  lemma TwoReads(p: Provider, a: seq<Byte>, b: seq<Byte>)
    ensures Joined([a, b]) == a + b
    ensures var d := Drain(p, a);
      var e := Drain(p, d.rest + b);
      Feed(p, [], [a, b]) == (d.frames + e.frames, e.rest)
  {
    hide Drain, Feed, Joined;
    FeedNothing(p);
    FeedNext(p, [], a);
    FeedNext(p, [a], b);
    assert [] + [a] == [a] && [a] + [b] == [a, b];
    assert [] + a == a && [] + Drain(p, a).frames == Drain(p, a).frames;
  }

  /** A read takes a whole frame out of the buffer, whether it parses or not. */
  lemma {:induction false} FrontTaken(p: Provider, a: seq<Byte>)
    requires FrontOf(a).Frame?
    ensures |Drain(p, a).rest| < |a|
    decreases |a|
  {
    hide FrontOf;
    var f := FrontOf(a);
    if p.parses(f.body) && FrontOf(f.rest).Frame? {
      FrontTaken(p, f.rest);
    }
  }

  /** The bytes of some frames, each behind its length. */
  function Wire(frames: seq<seq<Byte>>): seq<Byte> {
    if frames == [] then [] else Encode(|frames[0]|) + frames[0] + Wire(frames[1..])
  }

  predicate Sendable(p: Provider, frames: seq<seq<Byte>>) {
    forall f <- frames :: 0 < |f| <= MAX_FRAME && p.parses(f)
  }

  lemma Parts(head: seq<Byte>, f: seq<Byte>, rest: seq<Byte>)
    ensures var data, n := head + f + rest, |head| + |f|;
      |data| == n + |rest| && data == head + (f + rest) && data[|head|..n] == f && data[n..] == rest
  {}

  lemma FrontOfWire(f: seq<Byte>, rest: seq<Byte>)
    requires 0 < |f| <= MAX_FRAME
    ensures FrontOf(Encode(|f|) + f + rest) == Frame(f, rest)
  {
    hide TryRead, Encode;
    RoundTrip(|f|, f + rest);
    Parts(Encode(|f|), f, rest);
  }

  lemma {:induction false} DrainWire(p: Provider, frames: seq<seq<Byte>>)
    requires Sendable(p, frames)
    ensures Drain(p, Wire(frames)) == Drained(Served(p, frames), [], false)
    decreases frames
  {
    hide FrontOf;
    if frames != [] {
      assert frames[0] in frames;
      FrontOfWire(frames[0], Wire(frames[1..]));
      DrainWire(p, frames[1..]);
      ServedOne(p, frames[0]);
    } else {
      NothingInFront();
    }
  }

  lemma NothingInFront()
    ensures FrontOf([]) == Partial
  {}

  /** Whatever reads the bytes of some frames arrive in, exactly those that can be served are dispatched. */
  lemma EveryFrameArrives(p: Provider, frames: seq<seq<Byte>>, chunks: seq<seq<Byte>>)
    requires Sendable(p, frames) && Joined(chunks) == Wire(frames)
    ensures Feed(p, [], chunks) == (Served(p, frames), [])
  {
    DrainWire(p, frames);
    NothingInFront();
    LeavesFrameExact(p, Joined(chunks));
    ChunksDoNotMatter(p, chunks);
  }

  /** Behind a frame that does not parse the cutting does matter: the rest waits for another read. */
  lemma BadFrameDependsOnChunks(p: Provider, bad: Byte, good: Byte)
    requires !p.parses([bad]) && p.parses([good]) && p.serves([good])
    ensures Joined([[1, bad] + [1, good]]) == Joined([[1, bad], [1, good]])
    ensures Feed(p, [], [[1, bad] + [1, good]]).0 == [] && Feed(p, [], [[1, bad], [1, good]]).0 == [[good]]
  {
    hide Drain, Feed, Joined;
    DrainOne(p, bad, [1, good]);
    DrainOne(p, bad, []);
    DrainOne(p, good, []);
    DrainNothing(p);
    var b: seq<Byte>, g: seq<Byte> := [1, bad], [1, good];
    TwoReads(p, b, g);
    FeedNothing(p);
    FeedNext(p, [], b + g);
    assert [] + [b + g] == [b + g] && [] + (b + g) == b + g && b + [] == b && [] + g == g + [];
    ServedOne(p, [good]);
    assert [] + ([[good]] + []) == [[good]];
  }

  lemma DrainNothing(p: Provider)
    ensures Drain(p, []) == Drained([], [], false)
  {}

  lemma DrainOne(p: Provider, b: Byte, rest: seq<Byte>)
    ensures Drain(p, [1, b] + rest)
            == if p.parses([b]) then Dispatch(p, [b], Drain(p, rest))
               else Drained([], rest, true)
  {
    var data := [1, b] + rest;
    assert TryRead(data) == Ok(1, 1);
    assert data[1..2] == [b] && data[2..] == rest;
  }
}
