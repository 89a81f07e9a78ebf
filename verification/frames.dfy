/** The serial frames between the PC and the ESP32 (protocol v4) and the byte-stream parser that resynchronises on the
    two sync bytes.  Frame: A5 5A | version 4 | kind | payload length u16 | sequence u32 | sender ms u32 | payload |
    CRC-16 of everything between the sync bytes and the CRC.  All integers are little-endian. */
module Frames {
  import opened Crc

  type Bytes = seq<Byte>

  datatype Option<T> = None | Some(value: T)

  const SYNC_1: Byte := 0xA5
  const SYNC_2: Byte := 0x5A
  const VERSION: Byte := 4
  const HEADER_SIZE := 14
  const MAX_PAYLOAD := 64
  const U32 := 0x1_0000_0000

  datatype Frame = Frame(kind: int, seqNo: int, senderMs: int, payload: Bytes)

  predicate WellFormed(f: Frame) {
    0 <= f.kind < 256 && 0 <= f.seqNo < U32 && 0 <= f.senderMs < U32 && |f.payload| <= MAX_PAYLOAD
  }

  // ----- little-endian integers

  function LE2(v: nat): (r: Bytes)
    ensures |r| == 2
  {
    [v % 256, v / 256 % 256]
  }

  function LE4(v: nat): (r: Bytes)
    ensures |r| == 4
  {
    LE2(v % 65536) + LE2(v / 65536)
  }

  function U2(b: Bytes): nat
    requires |b| == 2
  {
    var lo: nat, hi: nat := b[0], b[1];
    lo + 256 * hi
  }

  function U4(b: Bytes): nat
    requires |b| == 4
  {
    U2(b[..2]) + 65536 * U2(b[2..])
  }

  lemma U2OfLE2(v: nat)
    requires v < 65536
    ensures U2(LE2(v)) == v
  {
  }

  lemma LE2OfU2(b: Bytes)
    requires |b| == 2
    ensures LE2(U2(b)) == b && U2(b) < 65536
  {
  }

  lemma U4OfLE4(v: nat)
    requires v < U32
    ensures U4(LE4(v)) == v
  {
    U2OfLE2(v % 65536);
    U2OfLE2(v / 65536);
    assert LE4(v)[..2] == LE2(v % 65536) && LE4(v)[2..] == LE2(v / 65536);
  }

  lemma LE4OfU4(b: Bytes)
    requires |b| == 4
    ensures LE4(U4(b)) == b && U4(b) < U32
  {
    LE2OfU2(b[..2]);
    LE2OfU2(b[2..]);
    assert U4(b) % 65536 == U2(b[..2]) && U4(b) / 65536 == U2(b[2..]);
    assert b == b[..2] + b[2..];
  }

  // ----- encoding

  /** The covered part: everything the CRC protects. */
  function Covered(f: Frame): Bytes
    requires WellFormed(f)
  {
    [VERSION, f.kind] + LE2(|f.payload|) + LE4(f.seqNo) + LE4(f.senderMs) + f.payload
  }

  function Image(f: Frame): Bytes
    requires WellFormed(f)
  {
    [SYNC_1, SYNC_2] + Covered(f) + LE2(Crc16(Covered(f)))
  }

  /** The low byte first. */
  predicate LowTwo(b: Bytes, i: nat, v: int)
    requires i + 2 <= |b|
  {
    var x: int, y: int := b[i], b[i + 1]; v == x + 256 * y
  }

  predicate LowFour(b: Bytes, i: nat, v: int)
    requires i + 4 <= |b|
  {
    var x: int, y: int, z: int, w: int := b[i], b[i + 1], b[i + 2], b[i + 3]; v == x + 256 * y + 65536 * z + 16777216 * w
  }

  lemma LowOfTwo(b: Bytes, i: nat, v: nat)
    requires v < 65536 && i + 2 <= |b| && b[i..i + 2] == LE2(v)
    ensures LowTwo(b, i, v)
  {
    assert b[i] == b[i..i + 2][0] && b[i + 1] == b[i..i + 2][1];
  }

  lemma LowOfFour(b: Bytes, i: nat, v: nat)
    requires v < U32 && i + 4 <= |b| && b[i..i + 4] == LE4(v)
    ensures LowFour(b, i, v)
  {
    var r := LE4(v);
    assert b[i] == r[0] && b[i + 1] == r[1] && b[i + 2] == r[2] && b[i + 3] == r[3];
    assert r[0] == v % 65536 % 256 && r[1] == v % 65536 / 256 && r[2] == v / 65536 % 256 && r[3] == v / 65536 / 256;
  }

  /** The bytes of an encoded frame: sync pair, version, kind, then the length, the sequence number, the time and, behind the
      payload, the checksum, each with its low byte first. */
  lemma BytesOfImage(f: Frame)
    requires WellFormed(f)
    ensures var b, n := Image(f), |f.payload|;
      && |b| == 16 + n && b[0] == 0xA5 && b[1] == 0x5A && b[2] == 4 && b[3] == f.kind
      && LowTwo(b, 4, n) && LowFour(b, 6, f.seqNo) && LowFour(b, 10, f.senderMs) && b[14..14 + n] == f.payload
      && LowTwo(b, 14 + n, NumberRegister(0xFFFF, b[2..14 + n]))
  {
    hide Crc16, NumberRegister, LE2, LE4, LowTwo, LowFour;
    var b, n, c := Image(f), |f.payload|, Covered(f);
    assert b[2..14 + n] == c && b[14 + n..14 + n + 2] == LE2(Crc16(c));
    assert b[4..4 + 2] == LE2(n) && b[6..6 + 4] == LE4(f.seqNo) && b[10..10 + 4] == LE4(f.senderMs);
    Crc16IsCcitt(c);
    Crc16Fits(c);
    LowOfTwo(b, 4, n);
    LowOfTwo(b, 14 + n, Crc16(c));
    LowOfFour(b, 6, f.seqNo);
    LowOfFour(b, 10, f.senderMs);
  }

  // ----- what the parser concludes from a buffer that starts with the sync bytes

  datatype Verdict = Wait | Reject | Accept(frame: Frame, size: nat)

  predicate SyncAt(b: Bytes, i: int) {
    0 <= i && i + 1 < |b| && b[i] == SYNC_1 && b[i + 1] == SYNC_2
  }

  function Examine(b: Bytes): (v: Verdict)
    requires SyncAt(b, 0)
    ensures v.Accept? ==> HEADER_SIZE + 2 <= v.size <= |b|
  {
    if |b| < HEADER_SIZE then Wait
    else
      var length := U2(b[4..6]);
      if b[2] != VERSION || length > MAX_PAYLOAD then Reject
      else if |b| < HEADER_SIZE + length + 2 then Wait
      else
        var end := HEADER_SIZE + length;
        if Crc16(b[2..end]) != U2(b[end..end + 2]) then Reject
        else Accept(Frame(b[3], U4(b[6..10]), U4(b[10..14]), b[HEADER_SIZE..end]), end + 2)
  }

  /** The first position of the sync bytes, or -1. */
  function Find(b: Bytes): (i: int)
    ensures i == -1 || (0 <= i && SyncAt(b, i))
    ensures forall k :: 0 <= k < (if i == -1 then |b| else i) ==> !SyncAt(b, k)
    decreases |b|
  {
    if |b| < 2 then -1
    else if SyncAt(b, 0) then 0
    else
      var i := Find(b[1..]);
      assert forall k :: 1 <= k ==> (SyncAt(b, k) <==> SyncAt(b[1..], k - 1));
      if i == -1 then -1 else i + 1
  }

  /** The frames found, the number of rejected candidates, and the bytes kept for the next call. */
  datatype Outcome = Outcome(frames: seq<Frame>, rejected: nat, rest: Bytes)

  function Before(fs: seq<Frame>, rejected: nat, o: Outcome): Outcome {
    Outcome(fs + o.frames, rejected + o.rejected, o.rest)
  }

  function Parse(buf: Bytes): Outcome
    decreases |buf|
  {
    var i := Find(buf);
    if i == -1 then Outcome([], 0, [])
    else
      var b := buf[i..];
      match Examine(b)
      case Wait => Outcome([], 0, b)
      case Reject => Before([], 1, Parse(b[1..]))
      case Accept(f, size) => Before([f], 0, Parse(b[size..]))
  }

  lemma BeforeTwice(fs: seq<Frame>, r: nat, gs: seq<Frame>, q: nat, o: Outcome)
    ensures Before(fs, r, Before(gs, q, o)) == Before(fs + gs, r + q, o)
  {
  }

  lemma BeforeEnd(fs: seq<Frame>, r: nat, rest: Bytes, o: Outcome)
    ensures Before(fs, r, Outcome([], 0, rest)) == Outcome(fs, r, rest)
    ensures Before([], 0, o) == o
  {
  }

  /** One round of the loop on a buffer that starts with the sync bytes. */
  lemma ParseAtSync(b: Bytes)
    requires SyncAt(b, 0)
    ensures Examine(b).Wait? ==> Parse(b) == Outcome([], 0, b)
    ensures Examine(b).Reject? ==> Parse(b) == Before([], 1, Parse(b[1..]))
    ensures Examine(b).Accept? ==> Parse(b) == Before([Examine(b).frame], 0, Parse(b[Examine(b).size..]))
  {
    hide Examine;
    assert Find(b) == 0 && b[0..] == b;
  }

  lemma ParseNoSync(b: Bytes)
    requires Find(b) == -1
    ensures Parse(b) == Outcome([], 0, [])
  {
  }

  /** The parser object: the loop of feed() works on its buffer until it has to wait for more bytes. */
  class Parser {
    var buf: Bytes
    var rejected: nat

    constructor ()
      ensures buf == [] && rejected == 0
    {
      buf, rejected := [], 0;
    }

    method Feed(data: Bytes) returns (out: seq<Frame>)
      modifies this
      ensures rejected >= old(rejected)
      ensures Outcome(out, rejected - old(rejected), buf) == Parse(old(buf) + data)
    {
      hide Parse, Examine, Find, SyncAt, Before;
      buf := buf + data;
      BeforeEnd([], 0, [], Parse(buf));
      out := [];
      ghost var target := Parse(buf);
      while true
        invariant rejected >= old(rejected)
        invariant target == Before(out, rejected - old(rejected), Parse(buf))
        decreases |buf|
      {
        var i := Find(buf);
        if i < 0 {
          ParseNoSync(buf);
          BeforeEnd(out, rejected - old(rejected), [], Parse(buf));
          buf := [];
          break;
        }
        if i > 0 {
          FoundSync(buf, i);
          ParseFrom(buf, i);
          buf := buf[i..];
        } else {
          AtStart(buf);
        }
        ParseAtSync(buf);
        var v := Examine(buf);
        if v.Wait? {
          BeforeEnd(out, rejected - old(rejected), buf, Parse(buf));
          break;
        }
        if v.Reject? {
          SyncIsTwo(buf);
          BeforeTwice(out, rejected - old(rejected), [], 1, Parse(buf[1..]));
          assert out + [] == out;
          rejected := rejected + 1;
          buf := buf[1..];
        } else {
          BeforeTwice(out, rejected - old(rejected), [v.frame], 0, Parse(buf[v.size..]));
          out := out + [v.frame];
          buf := buf[v.size..];
        }
      }
    }
  }

  lemma FoundSync(b: Bytes, i: nat)
    requires Find(b) == i
    ensures i <= |b| && SyncAt(b[i..], 0)
  {
    hide Find;
  }

  lemma SyncIsTwo(b: Bytes)
    requires SyncAt(b, 0)
    ensures |b| >= 2
  {
  }

  lemma AtStart(b: Bytes)
    requires Find(b) == 0
    ensures SyncAt(b, 0)
  {
  }

  lemma ParseFrom(b: Bytes, i: int)
    requires Find(b) == i != -1
    ensures Parse(b) == Parse(b[i..])
  {
    hide Find, Examine, SyncAt;
    FoundSync(b, i);
    ParseAtSync(b[i..]);
  }

  lemma ShiftSync(buf: Bytes, n: nat, k: nat)
    requires n <= |buf|
    ensures SyncAt(buf, k + n) <==> SyncAt(buf[n..], k)
    ensures SyncAt(buf, k + n) ==> k + n < |buf|
  {
  }

  lemma FindAfter(buf: Bytes, n: nat)
    requires n <= |buf| && forall k :: 0 <= k < n ==> !SyncAt(buf, k)
    ensures Find(buf[n..]) == if Find(buf) == -1 then -1 else Find(buf) - n
  {
    hide Find, SyncAt;
    var i, j := Find(buf), Find(buf[n..]);
    if j != -1 {
      ShiftSync(buf, n, j);
    }
    if i != -1 {
      ShiftSync(buf, n, i - n);
    }
  }

  lemma DropTwice(b: Bytes, n: nat, i: nat)
    requires n <= i <= |b|
    ensures b[n..][i - n..] == b[i..]
  {
  }

  /** Bytes before the first sync pair have no effect. */
  lemma SkipJunk(buf: Bytes, n: nat)
    requires n <= |buf| && forall k :: 0 <= k < n ==> !SyncAt(buf, k)
    ensures Parse(buf) == Parse(buf[n..])
    ensures Find(buf[n..]) == if Find(buf) == -1 then -1 else Find(buf) - n
  {
    FindAfter(buf, n);
    hide Find, Examine, SyncAt, Parse;
    var i := Find(buf);
    if i == -1 {
      ParseNoSync(buf);
      ParseNoSync(buf[n..]);
    } else {
      ParseFrom(buf, i);
      ParseFrom(buf[n..], i - n);
      DropTwice(buf, n, i);
    }
  }

  // ----- a frame that was encoded is read back

  lemma LayoutOfImage(f: Frame, rest: Bytes)
    requires WellFormed(f)
    ensures var b := Image(f) + rest; var n := |f.payload|;
      && |Image(f)| == HEADER_SIZE + n + 2 && SyncAt(b, 0) && b[2] == VERSION && b[3] == f.kind
      && b[4..6] == LE2(n) && b[6..10] == LE4(f.seqNo) && b[10..14] == LE4(f.senderMs)
      && b[HEADER_SIZE..HEADER_SIZE + n] == f.payload && b[2..HEADER_SIZE + n] == Covered(f)
      && b[HEADER_SIZE + n..HEADER_SIZE + n + 2] == LE2(Crc16(Covered(f)))
  {
    hide Crc16;
  }

  lemma ExamineImage(f: Frame, rest: Bytes)
    requires WellFormed(f)
    ensures SyncAt(Image(f) + rest, 0)
    ensures Examine(Image(f) + rest) == Accept(f, |Image(f)|)
  {
    LayoutOfImage(f, rest);
    U2OfLE2(|f.payload|);
    U4OfLE4(f.seqNo);
    U4OfLE4(f.senderMs);
    Crc16Fits(Covered(f));
    U2OfLE2(Crc16(Covered(f)));
  }

  /** The converse: whatever the parser accepts is the encoding of the frame it returns. */
  lemma AcceptedIsImage(b: Bytes)
    requires SyncAt(b, 0) && Examine(b).Accept?
    ensures WellFormed(Examine(b).frame) && Image(Examine(b).frame) == b[..Examine(b).size]
  {
    hide Crc16, U2, U4, LE2, LE4;
    var f, end := Examine(b).frame, Examine(b).size - 2;
    LE4OfU4(b[6..10]);
    LE4OfU4(b[10..14]);
    LE2OfU2(b[4..6]);
    LE2OfU2(b[end..end + 2]);
    assert Covered(f) == b[2..end] by {
      assert b[2..end] == [b[2], b[3]] + b[4..6] + b[6..10] + b[10..14] + b[14..end];
    }
    assert b[..end + 2] == [b[0], b[1]] + b[2..end] + b[end..end + 2];
  }

  function Concat(fs: seq<Frame>): Bytes
    requires forall f :: f in fs ==> WellFormed(f)
  {
    if fs == [] then [] else Image(fs[0]) + Concat(fs[1..])
  }

  lemma ParseImage(f: Frame, rest: Bytes)
    requires WellFormed(f)
    ensures Parse(Image(f) + rest) == Before([f], 0, Parse(rest))
  {
    hide Image, Examine, SyncAt, Parse, Before;
    ExamineImage(f, rest);
    ParseAtSync(Image(f) + rest);
    assert (Image(f) + rest)[|Image(f)|..] == rest;
  }

  lemma BeforeOthers(fs: seq<Frame>)
    requires fs != []
    ensures Before([fs[0]], 0, Outcome(fs[1..], 0, [])) == Outcome(fs, 0, [])
  {
  }

  lemma {:induction false} StreamRoundTrip(fs: seq<Frame>)
    requires forall f :: f in fs ==> WellFormed(f)
    ensures Parse(Concat(fs)) == Outcome(fs, 0, [])
  {
    if fs == [] {
      ParseNoSync([]);
    } else {
      hide Image, Parse, Before;
      ParseImage(fs[0], Concat(fs[1..]));
      StreamRoundTrip(fs[1..]);
      BeforeOthers(fs);
    }
  }

  lemma OneFrameRoundTrip(f: Frame)
    requires WellFormed(f)
    ensures Parse(Image(f)) == Outcome([f], 0, []) && |Image(f)| == HEADER_SIZE + |f.payload| + 2
  {
    hide Parse, Image;
    StreamRoundTrip([f]);
    assert Concat([f]) == Image(f) by { ConcatOfOne(f); }
    ImageLength(f);
  }

  lemma ConcatOfOne(f: Frame)
    requires WellFormed(f)
    ensures Concat([f]) == Image(f)
  {
    hide Image;
    assert [f][1..] == [] && [f][..0] == [];
    assert Image(f) + [] == Image(f) && [] + Image(f) == Image(f);
  }

  lemma ImageLength(f: Frame)
    requires WellFormed(f)
    ensures |Image(f)| == HEADER_SIZE + |f.payload| + 2
  {
  }

  /** encode_frame: a field out of range or a payload over 64 bytes is refused; everything else parses back to the frame,
      with nothing rejected and nothing left. */
  function EncodeFrame(f: Frame): (r: Option<Bytes>)
    ensures r.Some? <==>
      0 <= f.kind <= 255 && 0 <= f.seqNo < 0x1_0000_0000 && 0 <= f.senderMs < 0x1_0000_0000 && |f.payload| <= 64
    ensures r.Some? ==> |r.value| == HEADER_SIZE + |f.payload| + 2 && Parse(r.value) == Outcome([f], 0, [])
  {
    if WellFormed(f) then
      OneFrameRoundTrip(f);
      Some(Image(f))
    else None
  }

  // ----- every emitted frame is a piece of the input, in order and without overlap

  /** Where in buf the emitted frames start. */
  function Positions(buf: Bytes, offset: nat): seq<nat>
    decreases |buf|
  {
    var i := Find(buf);
    if i == -1 then []
    else
      var b := buf[i..];
      match Examine(b)
      case Wait => []
      case Reject => Positions(b[1..], offset + i + 1)
      case Accept(f, size) => [offset + i] + Positions(b[size..], offset + i + size)
  }

  ghost predicate PieceAt(input: Bytes, f: Frame, p: nat) {
    WellFormed(f) && p + |Image(f)| <= |input| && input[p..p + |Image(f)|] == Image(f)
  }

  ghost predicate Pieces(input: Bytes, fs: seq<Frame>, ps: seq<nat>, from: nat, to: nat) {
    && |fs| == |ps| && from <= to <= |input|
    && (forall k :: 0 <= k < |fs| ==> from <= ps[k] && PieceAt(input, fs[k], ps[k]) && ps[k] + |Image(fs[k])| <= to)
    && (forall k, m :: 0 <= k < m < |fs| ==> ps[k] + |Image(fs[k])| <= ps[m])
  }

  lemma OnePieceMore(input: Bytes, f: Frame, at: nat, fs: seq<Frame>, ps: seq<nat>, from: nat, to: nat)
    requires from <= at && PieceAt(input, f, at) && Pieces(input, fs, ps, at + |Image(f)|, to)
    ensures Pieces(input, [f] + fs, [at] + ps, from, to)
  {
    hide Image;
    var gs, qs := [f] + fs, [at] + ps;
    forall k | 0 <= k < |gs| ensures from <= qs[k] && PieceAt(input, gs[k], qs[k]) && qs[k] + |Image(gs[k])| <= to {
      if k > 0 { assert gs[k] == fs[k - 1] && qs[k] == ps[k - 1]; }
    }
    forall k, m | 0 <= k < m < |gs| ensures qs[k] + |Image(gs[k])| <= qs[m] {
      assert qs[m] == ps[m - 1];
      if k > 0 { assert gs[k] == fs[k - 1] && qs[k] == ps[k - 1]; }
    }
  }

  /** The bytes of input that are left for the next call: the end of the input, or nothing. */
  ghost predicate IsSuffix(rest: Bytes, input: Bytes) {
    |rest| <= |input| && rest == input[|input| - |rest|..]
  }

  /** What is emitted from `from` on. */
  ghost predicate ParsedPieces(input: Bytes, from: nat)
    requires from <= |input|
  {
    var o := Parse(input[from..]);
    && |o.rest| <= |input| - from && IsSuffix(o.rest, input)
    && Pieces(input, o.frames, Positions(input[from..], from), from, |input| - |o.rest|)
  }

  lemma PositionsNoSync(b: Bytes, offset: nat)
    requires Find(b) == -1
    ensures Positions(b, offset) == []
  {
  }

  lemma PositionsAtSync(b: Bytes, offset: nat)
    requires SyncAt(b, 0)
    ensures Examine(b).Wait? ==> Positions(b, offset) == []
    ensures Examine(b).Reject? ==> Positions(b, offset) == Positions(b[1..], offset + 1)
    ensures Examine(b).Accept? ==> Positions(b, offset) == [offset] + Positions(b[Examine(b).size..], offset + Examine(b).size)
  {
    hide Examine;
    assert Find(b) == 0 && b[0..] == b;
  }

  lemma PositionsFrom(b: Bytes, offset: nat, i: int)
    requires Find(b) == i != -1
    ensures Positions(b, offset) == Positions(b[i..], offset + i)
  {
    hide Find, Examine, SyncAt;
    FoundSync(b, i);
    PositionsAtSync(b[i..], offset + i);
  }

  lemma NothingParsed(input: Bytes, from: nat)
    requires from <= |input| && Find(input[from..]) == -1
    ensures ParsedPieces(input, from)
  {
    hide Parse, Positions, PieceAt, Find;
    ParseNoSync(input[from..]);
    PositionsNoSync(input[from..], from);
  }

  lemma ParsedLater(input: Bytes, from: nat, i: nat)
    requires from + i <= |input| && Find(input[from..]) == i && ParsedPieces(input, from + i)
    ensures ParsedPieces(input, from)
  {
    hide Parse, Positions, PieceAt, Find, Image, IsSuffix;
    DropTwice(input, from, from + i);
    ParseFrom(input[from..], i);
    PositionsFrom(input[from..], from, i);
  }

  lemma SuffixIs(input: Bytes, at: nat)
    requires at <= |input|
    ensures IsSuffix(input[at..], input)
  {
  }

  lemma WaitsHere(input: Bytes, at: nat)
    requires at <= |input| && SyncAt(input[at..], 0) && Examine(input[at..]).Wait?
    ensures ParsedPieces(input, at)
  {
    hide Parse, Positions, PieceAt, Examine, Image, IsSuffix, SyncAt, Before;
    ParseAtSync(input[at..]);
    PositionsAtSync(input[at..], at);
    SuffixIs(input, at);
  }

  lemma RejectedHere(input: Bytes, at: nat)
    requires at + 1 <= |input| && SyncAt(input[at..], 0) && Examine(input[at..]).Reject? && ParsedPieces(input, at + 1)
    ensures ParsedPieces(input, at)
  {
    hide Parse, Positions, PieceAt, Examine, Image, IsSuffix, SyncAt;
    ParseAtSync(input[at..]);
    PositionsAtSync(input[at..], at);
    DropTwice(input, at, at + 1);
  }

  lemma PieceHere(input: Bytes, at: nat, next: nat)
    requires at <= next <= |input| && SyncAt(input[at..], 0) && Examine(input[at..]).Accept?
    requires next == at + Examine(input[at..]).size && ParsedPieces(input, next)
    ensures ParsedPieces(input, at)
  {
    hide Parse, Positions, Pieces, PieceAt, Examine, Image, IsSuffix, SyncAt;
    ParseAtSync(input[at..]);
    PositionsAtSync(input[at..], at);
    DropTwice(input, at, next);
    AcceptedHere(input, at);
    var o := Parse(input[next..]);
    OnePieceMore(input, Examine(input[at..]).frame, at, o.frames, Positions(input[next..], next), at, |input| - |o.rest|);
  }

  lemma {:induction false} ParsedInPieces(input: Bytes, from: nat)
    requires from <= |input|
    ensures ParsedPieces(input, from)
    decreases |input| - from
  {
    hide Examine, SyncAt, Find, ParsedPieces;
    var i := Find(input[from..]);
    if i == -1 {
      NothingParsed(input, from);
    } else {
      var at := from + i;
      FoundSync(input[from..], i);
      DropTwice(input, from, at);
      SyncIsTwo(input[at..]);
      match Examine(input[at..]) {
        case Wait => WaitsHere(input, at);
        case Reject =>
          ParsedInPieces(input, at + 1);
          RejectedHere(input, at);
        case Accept(f, size) =>
          ParsedInPieces(input, at + size);
          PieceHere(input, at, at + size);
      }
      ParsedLater(input, from, i);
    }
  }

  lemma FramesArePieces(input: Bytes, from: nat)
    requires from <= |input|
    ensures var o := Parse(input[from..]);
      && |o.rest| <= |input| - from && IsSuffix(o.rest, input)
      && Pieces(input, o.frames, Positions(input[from..], from), from, |input| - |o.rest|)
  {
    hide Parse, Positions, Pieces, IsSuffix;
    ParsedInPieces(input, from);
  }

  lemma TakeOfDrop(b: Bytes, at: nat, n: nat)
    requires at + n <= |b|
    ensures b[at..][..n] == b[at..at + n]
  {
  }

  lemma AcceptedHere(input: Bytes, at: nat)
    requires at <= |input| && SyncAt(input[at..], 0) && Examine(input[at..]).Accept?
    ensures PieceAt(input, Examine(input[at..]).frame, at)
    ensures |Image(Examine(input[at..]).frame)| == Examine(input[at..]).size
  {
    hide Examine, Image, SyncAt;
    AcceptedIsImage(input[at..]);
    TakeOfDrop(input, at, Examine(input[at..]).size);
  }

  /** The kept bytes never fill more than one frame: under 80 bytes. */
  lemma {:induction false} RestIsShort(buf: Bytes)
    ensures |Parse(buf).rest| < 80
    ensures Parse(buf).rest != [] ==> SyncAt(Parse(buf).rest, 0)
    decreases |buf|
  {
    var i := Find(buf);
    if i != -1 {
      var b := buf[i..];
      match Examine(b)
      case Wait =>
      case Reject => RestIsShort(b[1..]);
      case Accept(_, size) => RestIsShort(b[size..]);
    }
  }

  // ----- splitting the stream between two calls

  /** What a parser that loses nothing would have to keep: the rest, or a lone first sync byte at the very end. */
  function Carry(buf: Bytes): Bytes
    decreases |buf|
  {
    var i := Find(buf);
    if i == -1 then (if buf != [] && buf[|buf| - 1] == SYNC_1 then [SYNC_1] else [])
    else
      var b := buf[i..];
      match Examine(b)
      case Wait => b
      case Reject => Carry(b[1..])
      case Accept(_, size) => Carry(b[size..])
  }

  /** feed() clears a residue without sync pair, and with it a lone A5 at its end. */
  predicate DropsSync(buf: Bytes) {
    Carry(buf) == [SYNC_1]
  }

  lemma CarryNoSync(x: Bytes)
    requires Find(x) == -1
    ensures Carry(x) == if x != [] && x[|x| - 1] == SYNC_1 then [SYNC_1] else []
  {
    hide Find, Examine;
  }

  lemma CarryStep(x: Bytes)
    requires Find(x) != -1
    ensures var b := x[Find(x)..];
      && (Examine(b).Wait? ==> Carry(x) == b)
      && (Examine(b).Reject? ==> Carry(x) == Carry(b[1..]))
      && (Examine(b).Accept? ==> Carry(x) == Carry(b[Examine(b).size..]))
  {
    hide Find, Examine, SyncAt;
  }

  /** The rest kept of buf is all there is to carry, unless that is a lone first sync byte, which is dropped. */
  predicate IsRest(carry: Bytes, rest: Bytes, buf: Bytes) {
    if carry == [SYNC_1] then rest == [] && buf != [] && buf[|buf| - 1] == SYNC_1 else carry == rest
  }

  lemma RestOfTail(carry: Bytes, rest: Bytes, b: Bytes, i: nat)
    requires i <= |b| && IsRest(carry, rest, b[i..])
    ensures IsRest(carry, rest, b)
  {
  }

  lemma RestOfNoSync(b: Bytes)
    ensures IsRest(if b != [] && b[|b| - 1] == SYNC_1 then [SYNC_1] else [], [], b)
  {
  }

  lemma RestOfWait(b: Bytes)
    requires |b| >= 2
    ensures IsRest(b, b, b)
  {
  }

  lemma {:induction false} CarryIsRest(buf: Bytes)
    ensures IsRest(Carry(buf), Parse(buf).rest, buf)
    decreases |buf|
  {
    hide Find, Examine, Parse, Carry, Before, SyncAt, IsRest;
    var i := Find(buf);
    if i == -1 {
      ParseNoSync(buf);
      CarryNoSync(buf);
      RestOfNoSync(buf);
    } else {
      FoundSync(buf, i);
      var b := buf[i..];
      CarryStep(buf);
      ParseFrom(buf, i);
      ParseAtSync(b);
      SyncIsTwo(b);
      if Examine(b).Reject? {
        CarryIsRest(b[1..]);
        RestBefore([], 1, Parse(b[1..]));
        RestOfTail(Carry(buf), Parse(buf).rest, b, 1);
      } else if Examine(b).Accept? {
        CarryIsRest(b[Examine(b).size..]);
        RestBefore([Examine(b).frame], 0, Parse(b[Examine(b).size..]));
        RestOfTail(Carry(buf), Parse(buf).rest, b, Examine(b).size);
      } else {
        RestOfWait(b);
      }
      RestOfTail(Carry(buf), Parse(buf).rest, buf, i);
    }
  }

  lemma RestBefore(fs: seq<Frame>, rejected: nat, o: Outcome)
    ensures Before(fs, rejected, o).rest == o.rest
  {
  }

  lemma ExamineMore(b: Bytes, y: Bytes)
    requires SyncAt(b, 0) && !Examine(b).Wait?
    ensures Examine(b + y) == Examine(b)
  {
    hide Crc16, U2, U4;
    assert (b + y)[4..6] == b[4..6];
    var length := U2(b[4..6]);
    if b[2] == VERSION && length <= MAX_PAYLOAD {
      var end := HEADER_SIZE + length;
      assert (b + y)[2..end] == b[2..end] && (b + y)[end..end + 2] == b[end..end + 2];
      assert (b + y)[6..10] == b[6..10] && (b + y)[10..14] == b[10..14] && (b + y)[14..end] == b[14..end];
    }
  }

  lemma FindMore(x: Bytes, y: Bytes)
    requires Find(x) != -1
    ensures Find(x + y) == Find(x)
  {
    assert forall k :: 0 <= k && k + 1 < |x| ==> (SyncAt(x, k) <==> SyncAt(x + y, k));
    assert SyncAt(x + y, Find(x));
  }

  lemma ParseInTwoNoSync(x: Bytes, y: Bytes)
    requires Find(x) == -1
    ensures Parse(x + y) == Parse(Carry(x) + y)
  {
    hide Examine, Parse, SyncAt, Carry, Find;
    CarriedTail(x);
    var n := |x| - |Carry(x)|;
    NoSyncBefore(x, y, n);
    SkipJunk(x + y, n);
    assert (x + y)[n..] == x[n..] + y;
  }

  lemma CarriedTail(x: Bytes)
    requires Find(x) == -1
    ensures |Carry(x)| <= |x| && x[|x| - |Carry(x)|..] == Carry(x)
  {
    hide Find, Carry;
    CarryNoSync(x);
  }

  lemma NoSyncBefore(x: Bytes, y: Bytes, n: int)
    requires Find(x) == -1 && n == |x| - |Carry(x)| && 0 <= n
    ensures forall k :: 0 <= k < n ==> !SyncAt(x + y, k)
  {
    hide Examine, Parse;
    forall k | 0 <= k < n
      ensures !SyncAt(x + y, k)
    {
      assert !SyncAt(x, k);
    }
  }

  /** Parsing x + y is parsing x and then what x carries, followed by y: for all bytes. */
  lemma {:induction false} ParseInTwo(x: Bytes, y: Bytes)
    ensures Parse(x + y) == Before(Parse(x).frames, Parse(x).rejected, Parse(Carry(x) + y))
    decreases |x|
  {
    hide Examine, Parse, Carry;
    var i := Find(x);
    if i == -1 {
      ParseInTwoNoSync(x, y);
      ParseNoSync(x);
    } else {
      FindMore(x, y);
      var b := x[i..];
      SkipJunk(x, i);
      SkipJunk(x + y, i);
      assert (x + y)[i..] == b + y;
      ParseAtSync(b);
      CarryStep(x);
      if !Examine(b).Wait? {
        ExamineMore(b, y);
        ParseAtSync(b + y);
        var n := if Examine(b).Reject? then 1 else Examine(b).size;
        var t := b[n..];
        assert (b + y)[n..] == t + y;
        ParseInTwo(t, y);
        if Examine(b).Reject? {
          BeforeTwice([], 1, Parse(t).frames, Parse(t).rejected, Parse(Carry(t) + y));
        } else {
          BeforeTwice([Examine(b).frame], 0, Parse(t).frames, Parse(t).rejected, Parse(Carry(t) + y));
        }
      }
    }
  }

  /** feed(x) then feed(y) on a fresh parser. */
  function FeedTwice(x: Bytes, y: Bytes): Outcome {
    Before(Parse(x).frames, Parse(x).rejected, Parse(Parse(x).rest + y))
  }

  lemma SplitAgrees(x: Bytes, y: Bytes)
    requires !(DropsSync(x) && y != [] && y[0] == SYNC_2)
    ensures FeedTwice(x, y) == Parse(x + y)
  {
    ParseInTwo(x, y);
    CarryIsRest(x);
    if DropsSync(x) {
      assert !SyncAt([SYNC_1] + y, 0);
      SkipJunk([SYNC_1] + y, 1);
      assert ([SYNC_1] + y)[1..] == y && [] + y == y;
    }
  }

  /** A stream may be cut after x, whatever follows, exactly when x does not end in a sync byte that feed() drops. */
  lemma SplitSafeIff(x: Bytes)
    ensures (forall y :: FeedTwice(x, y) == Parse(x + y)) <==> !DropsSync(x)
  {
    if DropsSync(x) {
      var y := [SYNC_2];
      ParseInTwo(x, y);
      CarryIsRest(x);
      assert [SYNC_1] + y == [SYNC_1, SYNC_2];
      assert SyncAt([SYNC_1] + y, 0);
      assert Parse([SYNC_1] + y).rest == [SYNC_1, SYNC_2] by { assert Find([SYNC_1] + y) == 0; }
      assert Parse([] + y).rest == [] by { assert Find([] + y) == -1; }
      assert FeedTwice(x, y).rest != Parse(x + y).rest;
    } else {
      forall y ensures FeedTwice(x, y) == Parse(x + y) { SplitAgrees(x, y); }
    }
  }

  /** The drop loses every frame: when the read boundary falls between its two sync bytes the frame does not come out, and
      nothing else does if its other bytes contain no sync pair. */
  lemma SplitLosesFrame(f: Frame)
    requires WellFormed(f)
    ensures Parse(Image(f)).frames == [f]
    ensures f !in FeedTwice(Image(f)[..1], Image(f)[1..]).frames
    ensures Find(Image(f)[1..]) == -1 ==> FeedTwice(Image(f)[..1], Image(f)[1..]).frames == []
  {
    hide Image, Parse, Examine, Find, SyncAt, Positions, Pieces, IsSuffix, FeedTwice;
    OneFrameRoundTrip(f);
    var input := Image(f)[1..];
    NoSyncInOne(Image(f)[..1]);
    ParseNoSync(Image(f)[..1]);
    FedAfterNothing(Image(f)[..1], input);
    assert input[0..] == input;
    FramesArePieces(input, 0);
    PiecesFit(input, Parse(input).frames, Positions(input, 0), |input| - |Parse(input).rest|);
    if Find(input) == -1 {
      ParseNoSync(input);
    }
  }

  lemma NoSyncInOne(b: Bytes)
    requires |b| == 1
    ensures Find(b) == -1
  {
  }

  lemma FedAfterNothing(x: Bytes, y: Bytes)
    requires Parse(x) == Outcome([], 0, [])
    ensures FeedTwice(x, y) == Parse(y)
  {
    hide Parse;
    assert [] + y == y;
  }

  lemma PiecesFit(input: Bytes, fs: seq<Frame>, ps: seq<nat>, to: nat)
    requires Pieces(input, fs, ps, 0, to)
    ensures forall f :: f in fs ==> WellFormed(f) && |Image(f)| <= |input|
  {
    hide Image;
  }

  /** One of the two empty frames of kind 0 with the sequence numbers 0 and 1 has no other sync pair: only the checksum could
      hold one, and the two checksums differ. */
  lemma SomeFrameHasNoSecondSync() returns (f: Frame)
    ensures WellFormed(f) && Find(Image(f)[1..]) == -1
  {
    hide Crc16;
    f := Frame(0, 0, 0, []);
    var g := Frame(0, 1, 0, []);
    var c, d := Covered(f), Covered(g);
    assert c == [4, 0, 0, 0, 0, 0, 0, 0, 0, 0, 0, 0] && d == [4, 0, 0, 0, 1, 0, 0, 0, 0, 0, 0, 0];
    assert DifferOnlyAt(c, d, 4) by { assert c[..4] == d[..4] && c[6..] == d[6..]; }
    assert c != d by { assert c[4] != d[4]; }
    AdjacentChangeDetected(c, d, 4);
    Crc16Fits(c);
    Crc16Fits(d);
    U2OfLE2(Crc16(c));
    U2OfLE2(Crc16(d));
    if Find(Image(f)[1..]) != -1 {
      SecondSyncIsChecksum(f);
      if Find(Image(g)[1..]) != -1 {
        SecondSyncIsChecksum(g);
        assert false;
      }
      f := g;
    }
  }

  lemma SecondSyncIsChecksum(f: Frame)
    requires WellFormed(f) && f.kind == 0 && f.seqNo < 2 && f.senderMs == 0 && f.payload == []
    requires Find(Image(f)[1..]) != -1
    ensures LE2(Crc16(Covered(f))) == [SYNC_1, SYNC_2]
  {
    hide Crc16;
    var b := Image(f)[1..];
    var i := Find(b);
    assert b == [SYNC_2, 4, 0, 0, 0, f.seqNo, 0, 0, 0, 0, 0, 0, 0] + LE2(Crc16(Covered(f)));
    assert SyncAt(b, i) && i == 13;
  }

  /** feed() over a list of chunks, from a fresh parser. */
  function FeedAll(rest: Bytes, chunks: seq<Bytes>): Outcome
    decreases |chunks|
  {
    if chunks == [] then Outcome([], 0, rest)
    else
      var o := Parse(rest + chunks[0]);
      Before(o.frames, o.rejected, FeedAll(o.rest, chunks[1..]))
  }

  function Flatten(chunks: seq<Bytes>): Bytes {
    if chunks == [] then [] else chunks[0] + Flatten(chunks[1..])
  }

  /** However the stream is cut into chunks, as long as no read starts with the second sync byte, nothing changes. */
  lemma {:induction false} ReadsAgree(rest: Bytes, chunks: seq<Bytes>)
    requires Parse(rest) == Outcome([], 0, rest)
    requires forall r :: r in chunks ==> r == [] || r[0] != SYNC_2
    ensures FeedAll(rest, chunks) == Parse(rest + Flatten(chunks))
    decreases |chunks|
  {
    hide Parse, Before;
    if chunks == [] {
      assert rest + [] == rest;
    } else {
      var x := rest + chunks[0];
      var y := Flatten(chunks[1..]);
      FlattenStart(chunks[1..]);
      ParsedOnce(x, y);
      ParseOfRest(x);
      ReadsAgree(Parse(x).rest, chunks[1..]);
      assert rest + Flatten(chunks) == x + y;
    }
  }

  lemma ParsedOnce(x: Bytes, y: Bytes)
    requires y == [] || y[0] != SYNC_2
    ensures Parse(x + y) == Before(Parse(x).frames, Parse(x).rejected, Parse(Parse(x).rest + y))
  {
    hide Parse;
    SplitAgrees(x, y);
  }

  lemma {:induction false} FlattenStart(chunks: seq<Bytes>)
    requires forall r :: r in chunks ==> r == [] || r[0] != SYNC_2
    ensures Flatten(chunks) == [] || Flatten(chunks)[0] != SYNC_2
  {
    if chunks != [] {
      FlattenStart(chunks[1..]);
    }
  }

  lemma {:induction false} ParseOfRest(buf: Bytes)
    ensures Parse(Parse(buf).rest) == Outcome([], 0, Parse(buf).rest)
    decreases |buf|
  {
    var i := Find(buf);
    if i != -1 {
      var b := buf[i..];
      match Examine(b)
      case Wait => assert Find(b) == 0 && b[0..] == b;
      case Reject => ParseOfRest(b[1..]);
      case Accept(_, size) => ParseOfRest(b[size..]);
    }
  }

  // ----- damaged frames

  lemma WrongCrcIsRejected(d: Bytes, n: nat)
    requires n <= MAX_PAYLOAD && |d| == HEADER_SIZE + n + 2 && SyncAt(d, 0) && d[2] == VERSION && d[4..6] == LE2(n)
    requires Crc16(d[2..HEADER_SIZE + n]) != U2(d[HEADER_SIZE + n..HEADER_SIZE + n + 2])
    ensures Examine(d) == Reject
  {
    hide Crc16, U2, LE2;
    U2OfLE2(n);
  }

  lemma DamagedIsRejected(f: Frame, d: Bytes, i: nat)
    requires WellFormed(f) && 6 <= i && i + 1 < HEADER_SIZE + |f.payload|
    requires DifferOnlyAt(Image(f), d, i) && d != Image(f)
    ensures SyncAt(d, 0) && Examine(d) == Reject
  {
    hide Image, Covered, Crc16, Examine, U2, LE2, LE4;
    var e, n, end := Image(f), |f.payload|, HEADER_SIZE + |f.payload|;
    LayoutOfImage(f, []);
    assert e + [] == e;
    SlicesOutside(e, d, i);
    assert d[4..6] == e[4..6] && d[end..end + 2] == e[end..end + 2];
    Crc16Fits(Covered(f));
    U2OfLE2(Crc16(Covered(f)));
    DamageInside(e, d, i, end);
    AdjacentChangeDetected(e[2..end], d[2..end], i - 2);
    WrongCrcIsRejected(d, n);
  }

  /** Two adjacent bytes of an encoded frame changed, both in the sequence, time or payload field: the candidate is
      rejected, so no frame is emitted at its place, whatever follows. */
  lemma AdjacentDamageRejected(f: Frame, d: Bytes, i: nat, rest: Bytes)
    requires WellFormed(f) && 6 <= i && i + 1 < HEADER_SIZE + |f.payload|
    requires DifferOnlyAt(Image(f), d, i) && d != Image(f)
    ensures Parse(d + rest) == Before([], 1, Parse((d + rest)[1..]))
  {
    DamagedIsRejected(f, d, i);
    hide Examine, Image, Parse;
    ExamineMore(d, rest);
    ParseAtSync(d + rest);
  }

  lemma SlicesOutside(e: Bytes, d: Bytes, i: nat)
    requires DifferOnlyAt(e, d, i)
    ensures forall k :: 0 <= k < |e| && !(i <= k < i + 2) ==> d[k] == e[k]
  {
    forall k | 0 <= k < |e| && !(i <= k < i + 2) ensures d[k] == e[k] {
      if k < i {
        assert d[..i][k] == e[..i][k];
      } else {
        assert d[i + 2..][k - (i + 2)] == e[i + 2..][k - (i + 2)];
      }
    }
  }

  lemma DamageInside(e: Bytes, d: Bytes, i: nat, end: nat)
    requires DifferOnlyAt(e, d, i) && d != e && 2 <= i && i + 2 <= end <= |e|
    ensures DifferOnlyAt(e[2..end], d[2..end], i - 2) && e[2..end] != d[2..end]
  {
    SlicesOutside(e, d, i);
    var x, y := e[2..end], d[2..end];
    if x == y {
      forall k | 0 <= k < |e| ensures d[k] == e[k] { if i <= k < i + 2 { assert x[k - 2] == y[k - 2]; } }
    }
  }

  // ----- COMMAND payloads

  const AXIS_LIMIT := 10000

  datatype Command = Command(token: int, x: int, y: int, flags: int)

  function Clamp(q: int): int {
    if q < -AXIS_LIMIT then -AXIS_LIMIT else if q > AXIS_LIMIT then AXIS_LIMIT else q
  }

  /** Two's complement 16-bit integers. */
  function Signed(v: nat): (r: int)
    requires v < 65536
    ensures -32768 <= r < 32768 && (r - v) % 65536 == 0
  {
    if v >= 32768 then v - 65536 else v
  }

  /** encode_command masks the token and the flags and clamps the axes. */
  function EncodeCommand(c: Command): Bytes {
    LE4(c.token % U32) + LE2(Clamp(c.x) % 65536) + LE2(Clamp(c.y) % 65536) + [c.flags % 256]
  }

  function DecodeCommand(b: Bytes): Command
    requires |b| == 9
  {
    Command(U4(b[..4]), Signed(U2(b[4..6])), Signed(U2(b[6..8])), b[8])
  }

  /** The bytes of an encoded COMMAND: token, x, y, flags, the axes in two's complement, low bytes first. */
  lemma BytesOfCommand(c: Command)
    ensures var b := EncodeCommand(c);
      && |b| == 9 && LowFour(b, 0, c.token % U32) && LowTwo(b, 4, Clamp(c.x) % 65536) && LowTwo(b, 6, Clamp(c.y) % 65536)
      && b[8] == c.flags % 256
  {
    hide LE2, LE4, LowTwo, LowFour;
    var b := EncodeCommand(c);
    assert b[0..0 + 4] == LE4(c.token % U32) && b[4..4 + 2] == LE2(Clamp(c.x) % 65536) && b[6..6 + 2] == LE2(Clamp(c.y) % 65536);
    LowOfFour(b, 0, c.token % U32);
    LowOfTwo(b, 4, Clamp(c.x) % 65536);
    LowOfTwo(b, 6, Clamp(c.y) % 65536);
  }

  lemma CommandRoundTrip(c: Command)
    ensures |EncodeCommand(c)| == 9
    ensures DecodeCommand(EncodeCommand(c)) == Command(c.token % U32, Clamp(c.x), Clamp(c.y), c.flags % 256)
  {
    var b := EncodeCommand(c);
    assert b[..4] == LE4(c.token % U32) && b[4..6] == LE2(Clamp(c.x) % 65536) && b[6..8] == LE2(Clamp(c.y) % 65536);
    U4OfLE4(c.token % U32);
    U2OfLE2(Clamp(c.x) % 65536);
    U2OfLE2(Clamp(c.y) % 65536);
  }
}
