/** The frame codec under a feed session: an eight-byte header and a payload. */
module Frames {
  import opened Wrappers
  import opened Octets

  const MAGIC: nat := 0xFBAB
  const VERSION: Byte := 0x01
  const TWO_TO_THE_32 := 0x1_0000_0000

  datatype Frame = Frame(kind: Byte, payload: Bytes)

  datatype Error = ShortRead | BadMagic | BadVersion | TooLarge

  // ---- big-endian numbers ----

  function Put16(n: nat): Bytes {
    [n / 0x100 % 0x100, n % 0x100]
  }

  function Put32(n: nat): Bytes {
    Put16(n / 0x1_0000) + Put16(n)
  }

  function Get16(b: Bytes): nat
    requires |b| == 2
  {
    b[0] as int * 0x100 + b[1] as int
  }

  function Get32(b: Bytes): nat
    requires |b| == 4
  {
    Get16(b[..2]) * 0x1_0000 + Get16(b[2..])
  }

  lemma Get16Put16(n: nat)
    ensures Get16(Put16(n)) == n % 0x1_0000
  {
  }

  lemma Get32Put32(n: nat)
    ensures Get32(Put32(n)) == n % TWO_TO_THE_32
  {
    var b, high := Put32(n), n / 0x1_0000;
    assert b[..2] == Put16(high) && b[2..] == Put16(n);
    Get16Put16(high);
    Get16Put16(n);
    Halves(n);
  }

  lemma Halves(n: nat)
    ensures n / 0x1_0000 % 0x1_0000 * 0x1_0000 + n % 0x1_0000 == n % TWO_TO_THE_32
  {
  }

  // ---- one frame ----

  function Header(kind: Byte, length: nat): (h: Bytes)
    ensures |h| == 8
  {
    Put16(MAGIC) + [VERSION, kind] + Put32(length)
  }

  function Encode(f: Frame): Bytes {
    Header(f.kind, |f.payload|) + f.payload
  }

  /** What reading a frame from `b` gives: the frame and how many bytes it took. */
  function Decode(b: Bytes, max: nat): Result<(Frame, nat), Error> {
    if |b| < 8 then Err(ShortRead)
    else if Get16(b[..2]) != MAGIC then Err(BadMagic)
    else if b[2] != VERSION then Err(BadVersion)
    else
      var l := Get32(b[4..8]);
      if l > max then Err(TooLarge)
      else if |b| < 8 + l then Err(ShortRead)
      else Ok((Frame(b[3], b[8..8 + l]), 8 + l))
  }

  lemma HeaderFields(kind: Byte, length: nat, rest: Bytes)
    ensures var b := Header(kind, length) + rest;
            && |b| >= 8 && Get16(b[..2]) == MAGIC && b[2] == VERSION && b[3] == kind
            && Get32(b[4..8]) == length % TWO_TO_THE_32 && b[8..] == rest
  {
    var b := Header(kind, length) + rest;
    assert b[..2] == Put16(MAGIC) && b[4..8] == Put32(length);
    Get16Put16(MAGIC);
    Get32Put32(length);
  }

  lemma Between(b: Bytes, payload: Bytes, rest: Bytes)
    requires |b| >= 8 && b[8..] == payload + rest
    ensures |b| == 8 + |payload| + |rest| && b[8..8 + |payload|] == payload
  {
    assert b[8..8 + |payload|] == b[8..][..|payload|];
  }

  /** What is read of a written frame, with the length as its 32-bit field holds it. */
  lemma DecodeWritten(f: Frame, rest: Bytes, max: nat)
    ensures var l, b := |f.payload| % TWO_TO_THE_32, Encode(f) + rest;
            && |b| == 8 + |f.payload| + |rest| && 8 + l <= |b| && b[8..8 + |f.payload|] == f.payload
            && Decode(b, max) == if l > max then Err(TooLarge) else Ok((Frame(f.kind, b[8..8 + l]), 8 + l))
  {
    var b := Encode(f) + rest;
    Associate(Header(f.kind, |f.payload|), f.payload, rest);
    HeaderFields(f.kind, |f.payload|, f.payload + rest);
    Between(b, f.payload, rest);
  }

  /** A written frame reads back as itself if and only if its payload is within the limit;
      a length that does not fit its 32-bit field never does. */
  lemma FrameRoundTrip(f: Frame, rest: Bytes, max: nat)
    requires max < TWO_TO_THE_32
    ensures Decode(Encode(f) + rest, max) == Ok((f, |Encode(f)|)) <==> |f.payload| <= max
    ensures max < |f.payload| < TWO_TO_THE_32 ==> Decode(Encode(f) + rest, max) == Err(TooLarge)
  {
    DecodeWritten(f, rest, max);
    if |f.payload| >= TWO_TO_THE_32 {
      assert |f.payload| % TWO_TO_THE_32 < |f.payload|;
    } else {
      assert |f.payload| % TWO_TO_THE_32 == |f.payload|;
    }
  }

  lemma CutBehind(head: Bytes, tail: Bytes, k: nat)
    requires |head| <= k <= |head| + |tail|
    ensures (head + tail)[..k] == head + tail[..k - |head|]
  {
  }

  /** A frame cut anywhere is a short read, never another frame. */
  lemma CutFrame(f: Frame, k: nat, max: nat)
    requires max < TWO_TO_THE_32 && |f.payload| <= max && k < |Encode(f)|
    ensures Decode(Encode(f)[..k], max) == Err(ShortRead)
  {
    var b, l := Encode(f)[..k], |f.payload|;
    assert |b| == k && |Encode(f)| == 8 + l;
    if k >= 8 {
      CutBehind(Header(f.kind, l), f.payload, k);
      HeaderFields(f.kind, l, f.payload[..k - 8]);
      assert Get32(b[4..8]) == l;
    }
  }

  // ---- streams of frames ----

  function EncodeAll(fs: seq<Frame>): Bytes {
    if fs == [] then [] else Encode(fs[0]) + EncodeAll(fs[1..])
  }

  /** All frames a reader gets until a read fails. */
  function DecodeAll(b: Bytes, max: nat): seq<Frame>
    decreases |b|
  {
    match Decode(b, max)
    case Err(_) => []
    case Ok((f, n)) => [f] + DecodeAll(b[n..], max)
  }

  /** How many whole frames the first `k` bytes of a stream hold. */
  function WholeFrames(fs: seq<Frame>, k: nat): (m: nat)
    ensures m <= |fs|
  {
    if fs == [] || k < |Encode(fs[0])| then 0 else 1 + WholeFrames(fs[1..], k - |Encode(fs[0])|)
  }

  lemma DecodeFirst(f: Frame, rest: Bytes, max: nat)
    requires max < TWO_TO_THE_32 && |f.payload| <= max
    ensures DecodeAll(Encode(f) + rest, max) == [f] + DecodeAll(rest, max)
  {
    FrameRoundTrip(f, rest, max);
    assert (Encode(f) + rest)[|Encode(f)|..] == rest;
  }

  /** How many frames of a stream come before the first that is above the limit. */
  function Fitting(fs: seq<Frame>, max: nat): (n: nat)
    ensures n <= |fs|
  {
    if fs == [] || |fs[0].payload| > max then 0 else 1 + Fitting(fs[1..], max)
  }

  /** How many frames a reader with a limit gets from the first `k` bytes. */
  function Readable(fs: seq<Frame>, k: nat, max: nat): (n: nat)
    ensures n <= |fs|
  {
    if WholeFrames(fs, k) <= Fitting(fs, max) then WholeFrames(fs, k) else Fitting(fs, max)
  }

  /** No part of a frame above the limit is read as a frame. */
  lemma OversizedStops(f: Frame, tail: Bytes, k: nat, max: nat)
    requires max < |f.payload| < TWO_TO_THE_32 && k <= |Encode(f) + tail|
    ensures Decode((Encode(f) + tail)[..k], max).Err?
  {
    var l := |f.payload|;
    if k >= 8 {
      Associate(Header(f.kind, l), f.payload, tail);
      CutBehind(Header(f.kind, l), f.payload + tail, k);
      HeaderFields(f.kind, l, (f.payload + tail)[..k - 8]);
    }
  }

  lemma CutConcat<T>(a: seq<T>, b: seq<T>, k: nat)
    requires k <= |a| + |b|
    ensures (a + b)[..k] == if k < |a| then a[..k] else a + b[..k - |a|]
  {
  }

  /** Reading a stream cut at any byte gives exactly the frames that arrived whole, up to the first
      that is above the limit; nothing behind that one is ever read. */
  lemma {:induction false} CutStream(fs: seq<Frame>, k: nat, max: nat)
    requires max < TWO_TO_THE_32 && k <= |EncodeAll(fs)|
    requires forall f | f in fs :: |f.payload| < TWO_TO_THE_32
    ensures DecodeAll(EncodeAll(fs)[..k], max) == fs[..Readable(fs, k, max)]
  {
    if fs != [] {
      var n, tail := |Encode(fs[0])|, EncodeAll(fs[1..]);
      CutConcat(Encode(fs[0]), tail, k);
      if |fs[0].payload| > max {
        OversizedStops(fs[0], tail, k, max);
      } else if k < n {
        CutFrame(fs[0], k, max);
      } else {
        DecodeFirst(fs[0], tail[..k - n], max);
        CutStream(fs[1..], k - n, max);
        TakeOneMore(fs, Readable(fs[1..], k - n, max));
      }
    }
  }

  lemma {:induction false} FittingFit(fs: seq<Frame>, max: nat)
    ensures forall i | 0 <= i < Fitting(fs, max) :: |fs[i].payload| <= max
    ensures (forall f | f in fs :: |f.payload| <= max) ==> Fitting(fs, max) == |fs|
  {
    if fs != [] {
      FittingFit(fs[1..], max);
    }
  }

  lemma TakeOneMore(fs: seq<Frame>, m: nat)
    requires fs != [] && m < |fs|
    ensures fs[..1 + m] == [fs[0]] + fs[1..][..m]
  {
  }

  lemma {:induction false} AllWhole(fs: seq<Frame>)
    ensures WholeFrames(fs, |EncodeAll(fs)|) == |fs|
  {
    if fs != [] {
      AllWhole(fs[1..]);
    }
  }

  /** Reading the concatenation of any list of written frames returns that list. */
  lemma StreamRoundTrip(fs: seq<Frame>, max: nat)
    requires max < TWO_TO_THE_32
    requires forall f | f in fs :: |f.payload| <= max
    ensures DecodeAll(EncodeAll(fs), max) == fs
  {
    AllWhole(fs);
    FittingFit(fs, max);
    CutStream(fs, |EncodeAll(fs)|, max);
    assert EncodeAll(fs)[..|EncodeAll(fs)|] == EncodeAll(fs) && fs[..|fs|] == fs;
  }

  lemma Associate(a: Bytes, b: Bytes, c: Bytes)
    ensures a + (b + c) == a + b + c
  {
  }

  // ---- the code ----

  /** A byte stream: writes go at its end, reads take from its front. */
  class Stream {
    var bytes: Bytes

    constructor (bytes: Bytes)
      ensures this.bytes == bytes
    {
      this.bytes := bytes;
    }

    method Write(b: Bytes)
      modifies this
      ensures bytes == old(bytes) + b
    {
      bytes := bytes + b;
    }

    /** `io.ReadFull`: exactly `n` bytes, or an error with what there was used up. */
    method ReadFull(n: nat) returns (r: Result<Bytes, Error>)
      modifies this
      ensures old(|bytes|) >= n ==> r == Ok(old(bytes)[..n]) && bytes == old(bytes)[n..]
      ensures old(|bytes|) < n ==> r == Err(ShortRead) && bytes == []
    {
      if |bytes| < n {
        bytes := [];
        return Err(ShortRead);
      }
      r := Ok(bytes[..n]);
      bytes := bytes[n..];
    }
  }

  method WriteFrame(w: Stream, kind: Byte, payload: Bytes)
    modifies w
    ensures w.bytes == old(w.bytes) + Encode(Frame(kind, payload))
  {
    var header := new Byte[8];
    var magic, length := Put16(MAGIC), Put32(|payload|);
    header[0], header[1] := magic[0], magic[1];
    header[2] := VERSION;
    header[3] := kind;
    header[4], header[5], header[6], header[7] := length[0], length[1], length[2], length[3];
    assert header[..] == Header(kind, |payload|);
    w.Write(header[..]);
    assert old(w.bytes) + Header(kind, |payload|) + payload == old(w.bytes) + (Header(kind, |payload|) + payload);
    if |payload| == 0 {
      return;
    }
    w.Write(payload);
  }

  method ReadFrame(r: Stream, max: nat) returns (f: Result<Frame, Error>)
    modifies r
    ensures match Decode(old(r.bytes), max)
            case Err(e) => f == Err(e)
            case Ok((g, n)) => f == Ok(g) && r.bytes == old(r.bytes)[n..]
  {
    ghost var b := r.bytes;
    var header := r.ReadFull(8);
    if header.Err? {
      return Err(header.error);
    }
    var h := header.value;
    assert b[..2] == h[..2] && b[4..8] == h[4..8];
    if Get16(h[..2]) != MAGIC {
      return Err(BadMagic);
    }
    if h[2] != VERSION {
      return Err(BadVersion);
    }
    var l := Get32(h[4..8]);
    if l > max {
      return Err(TooLarge);
    }
    var payload := r.ReadFull(l);
    if payload.Err? {
      return Err(payload.error);
    }
    assert b[8..][..l] == b[8..8 + l] && b[8..][l..] == b[8 + l..];
    return Ok(Frame(h[3], payload.value));
  }
}
