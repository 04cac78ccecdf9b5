/**
  The byte format of the Agent's write-ahead log: a 16-byte header (magic, version, kind,
  two reserved bytes, big-endian length, big-endian checksum) followed by the body.
*/
module Framing {
  import opened Prelude
  import Crc32

  const HEADER_BYTES: nat := 16
  const VERSION: byte := 1
  const MAGIC: Bytes := [0x47, 0x4C, 0x57, 0x31]
  const FORMAT_LIMIT: nat := 0x1_0000_0000

  type Word = s: Bytes | |s| == 4 witness [0, 0, 0, 0]

  datatype Frame = Frame(kind: byte, body: Bytes)

  /**
    A log's parameters: the longest body its reader accepts, and the checksum function. Only
    damage detection depends on which function it is; CrcFormat is the one the Agent uses.
  */
  datatype Format = Format(limit: nat, sum: Bytes -> Word)

  function CrcFormat(limit: nat): Format {
    Format(limit, (data: Bytes) => Crc32.Crc(data))
  }

  // ---- big-endian lengths

  function PutLength(n: nat): Word
    requires n < FORMAT_LIMIT
  {
    [n / 256 / 256 / 256, n / 256 / 256 % 256, n / 256 % 256, n % 256]
  }

  function Shift(high: nat, low: byte): nat { high * 256 + low as nat }

  function GetLength(s: Word): nat { Shift(Shift(Shift(s[0] as nat, s[1]), s[2]), s[3]) }

  lemma ShiftDivides(n: nat)
    ensures Shift(n / 256, n % 256) == n
  {}

  lemma DivideShifts(high: nat, low: byte)
    ensures Shift(high, low) / 256 == high && Shift(high, low) % 256 == low as nat
  {}

  lemma LengthRoundTrip(n: nat)
    requires n < FORMAT_LIMIT
    ensures GetLength(PutLength(n)) == n
  {
    hide Shift;
    ShiftDivides(n);
    ShiftDivides(n / 256);
    ShiftDivides(n / 256 / 256);
  }

  lemma LengthReadBack(s: Word)
    ensures GetLength(s) < FORMAT_LIMIT
    ensures PutLength(GetLength(s)) == s
  {
    var a := Shift(s[0] as nat, s[1]);
    var b := Shift(a, s[2]);
    DivideShifts(b, s[3]);
    DivideShifts(a, s[2]);
    DivideShifts(s[0] as nat, s[1]);
    hide Shift;
    assert PutLength(GetLength(s)) == s;
  }

  // ---- one frame

  function FrameHeader(f: Frame, w: Format): (h: Bytes)
    requires |f.body| < FORMAT_LIMIT
    ensures |h| == HEADER_BYTES
  {
    MAGIC + [VERSION, f.kind, 0, 0] + PutLength(|f.body|) + w.sum([f.kind] + f.body)
  }

  function Encode(f: Frame, w: Format): (r: Bytes)
    requires |f.body| < FORMAT_LIMIT
    ensures |r| == HEADER_BYTES + |f.body|
  {
    FrameHeader(f, w) + f.body
  }

  datatype Header = Header(kind: byte, length: nat, checksum: Word)

  function ParseHeader(header: Bytes): Option<Header> {
    if |header| != HEADER_BYTES || header[..4] != MAGIC then None
    else if header[4] != VERSION then None
    else if header[6] != 0 || header[7] != 0 then None
    else Some(Header(header[5], GetLength(header[8..12]), header[12..16]))
  }

  /** Where everything is in an encoded frame. */
  lemma FrameLayout(f: Frame, w: Format)
    requires |f.body| < FORMAT_LIMIT
    ensures var e := Encode(f, w);
            && |e| == 16 + |f.body| && e[..4] == [0x47, 0x4C, 0x57, 0x31] && e[4] == 1 && e[5] == f.kind && e[6] == e[7] == 0
            && ((e[8] as int * 256 + e[9] as int) * 256 + e[10] as int) * 256 + e[11] as int == |f.body|
            && e[12..16] == w.sum([f.kind] + f.body) && e[16..] == f.body
  {
    var h := FrameHeader(f, w);
    assert h[8..12] == PutLength(|f.body|);
    LengthRoundTrip(|f.body|);
    assert Encode(f, w)[..16] == h;
    assert h[8] == h[8..12][0] && h[9] == h[8..12][1] && h[10] == h[8..12][2] && h[11] == h[8..12][3];
  }

  lemma ParseFrameHeader(f: Frame, w: Format)
    requires |f.body| < FORMAT_LIMIT
    ensures ParseHeader(FrameHeader(f, w)) == Some(Header(f.kind, |f.body|, w.sum([f.kind] + f.body)))
  {
    var h := FrameHeader(f, w);
    assert h[..4] == MAGIC;
    assert h[8..12] == PutLength(|f.body|);
    assert h[12..16] == w.sum([f.kind] + f.body);
    LengthRoundTrip(|f.body|);
  }

  lemma HeaderReadBack(h: Bytes, f: Frame, w: Format)
    requires |h| == HEADER_BYTES
    requires ParseHeader(h) == Some(Header(f.kind, |f.body|, w.sum([f.kind] + f.body)))
    ensures |f.body| < FORMAT_LIMIT && FrameHeader(f, w) == h
  {
    LengthReadBack(h[8..12]);
    assert h == h[..4] + [h[4], h[5], h[6], h[7]] + h[8..12] + h[12..16];
  }

  // ---- a file of frames

  /** Every body can be stored, and will be accepted by a reader of this format. */
  ghost predicate Fit(fs: seq<Frame>, w: Format) {
    w.limit < FORMAT_LIMIT && forall f :: f in fs ==> |f.body| <= w.limit
  }

  ghost function Concat(fs: seq<Frame>, w: Format): Bytes
    requires Fit(fs, w)
  {
    if fs == [] then [] else Encode(fs[0], w) + Concat(fs[1..], w)
  }

  lemma {:induction false} ConcatAppend(fs: seq<Frame>, gs: seq<Frame>, w: Format)
    requires Fit(fs, w) && Fit(gs, w)
    ensures Fit(fs + gs, w) && Concat(fs + gs, w) == Concat(fs, w) + Concat(gs, w)
  {
    if fs == [] {
      assert fs + gs == gs;
    } else {
      ConcatAppend(fs[1..], gs, w);
      assert (fs + gs)[1..] == fs[1..] + gs;
      hide Encode;
      assert Concat(fs + gs, w) == Encode(fs[0], w) + (Concat(fs[1..], w) + Concat(gs, w));
    }
  }

  lemma ConcatSnoc(fs: seq<Frame>, f: Frame, w: Format)
    requires Fit(fs + [f], w)
    ensures Fit(fs, w) && Concat(fs + [f], w) == Concat(fs, w) + Encode(f, w)
  {
    hide Encode;
    forall g | g in fs ensures |g.body| <= w.limit { assert g in fs + [f]; }
    assert f in fs + [f];
    ConcatAppend(fs, [f], w);
    assert Concat([f], w) == Encode(f, w) + [];
  }

  /** What a pass over the file finds: whole frames and the offset where they end, or damage. */
  datatype Scanned = Intact(frames: seq<Frame>, end: nat) | Corrupt(at: nat)

  ghost function After(f: Frame, s: Scanned): Scanned {
    var n := HEADER_BYTES + |f.body|;
    match s
    case Intact(frames, end) => Intact([f] + frames, n + end)
    case Corrupt(at) => Corrupt(n + at)
  }

  /** What recover() finds at an offset: an incomplete frame, a damaged one, or a whole one. */
  datatype Read = Torn | Damaged | Whole(frame: Frame)

  function ReadFrame(data: Bytes, w: Format): (r: Read)
    ensures r.Whole? ==> HEADER_BYTES + |r.frame.body| <= |data| && |r.frame.body| <= w.limit
  {
    if |data| < HEADER_BYTES then Torn
    else
      match ParseHeader(data[..HEADER_BYTES])
      case None => Damaged
      case Some(h) =>
        var n := HEADER_BYTES + h.length;
        if h.length > w.limit then Damaged
        else if |data| < n then Torn
        else if w.sum([h.kind] + data[HEADER_BYTES..n]) != h.checksum then Damaged
        else Whole(Frame(h.kind, data[HEADER_BYTES..n]))
  }

  /** The pass of recover() over a file, before it applies the records. */
  ghost function Scan(data: Bytes, w: Format): Scanned
    decreases |data|
  {
    match ReadFrame(data, w)
    case Torn => Intact([], 0)
    case Damaged => Corrupt(0)
    case Whole(f) => After(f, Scan(data[HEADER_BYTES + |f.body|..], w))
  }

  /** A whole frame is read exactly where its encoding stands. */
  lemma ReadWhole(data: Bytes, w: Format)
    requires w.limit < FORMAT_LIMIT && ReadFrame(data, w).Whole?
    ensures var f := ReadFrame(data, w).frame; data[..HEADER_BYTES + |f.body|] == Encode(f, w)
  {
    var f := ReadFrame(data, w).frame;
    HeaderReadBack(data[..HEADER_BYTES], f, w);
    hide FrameHeader, ParseHeader;
    assert data[..HEADER_BYTES + |f.body|] == data[..HEADER_BYTES] + data[HEADER_BYTES..HEADER_BYTES + |f.body|];
  }

  lemma ReadEncoded(f: Frame, rest: Bytes, w: Format)
    requires |f.body| <= w.limit < FORMAT_LIMIT
    ensures ReadFrame(Encode(f, w) + rest, w) == Whole(f)
  {
    var data := Encode(f, w) + rest;
    ParseFrameHeader(f, w);
    assert data[..HEADER_BYTES] == FrameHeader(f, w);
    assert data[HEADER_BYTES..HEADER_BYTES + |f.body|] == f.body;
  }

  lemma ScanOne(f: Frame, rest: Bytes, w: Format)
    requires |f.body| <= w.limit < FORMAT_LIMIT
    ensures Scan(Encode(f, w) + rest, w) == After(f, Scan(rest, w))
  {
    ReadEncoded(f, rest, w);
    hide ReadFrame, Encode;
    assert (Encode(f, w) + rest)[|Encode(f, w)|..] == rest;
  }

  ghost function AfterAll(fs: seq<Frame>, s: Scanned): Scanned {
    if fs == [] then s else After(fs[0], AfterAll(fs[1..], s))
  }

  lemma {:induction false} ScanConcat(fs: seq<Frame>, rest: Bytes, w: Format)
    requires Fit(fs, w)
    ensures Scan(Concat(fs, w) + rest, w) == AfterAll(fs, Scan(rest, w))
  {
    if fs == [] {
      assert Concat(fs, w) + rest == rest;
    } else {
      ScanConcat(fs[1..], rest, w);
      ScanOne(fs[0], Concat(fs[1..], w) + rest, w);
      hide Scan, Encode;
      assert Concat(fs, w) + rest == Encode(fs[0], w) + (Concat(fs[1..], w) + rest);
    }
  }

  lemma {:induction false} AfterAllShape(fs: seq<Frame>, s: Scanned, w: Format)
    requires Fit(fs, w)
    ensures s.Intact? ==> AfterAll(fs, s) == Intact(fs + s.frames, |Concat(fs, w)| + s.end)
    ensures s.Corrupt? ==> AfterAll(fs, s) == Corrupt(|Concat(fs, w)| + s.at)
  {
    if fs == [] {
      assert s.Intact? ==> fs + s.frames == s.frames;
    } else {
      AfterAllShape(fs[1..], s, w);
      assert s.Intact? ==> [fs[0]] + (fs[1..] + s.frames) == fs + s.frames;
    }
  }

  /** A reader gets back exactly the frames that were written. */
  lemma ScanWritten(fs: seq<Frame>, w: Format)
    requires Fit(fs, w)
    ensures Scan(Concat(fs, w), w) == Intact(fs, |Concat(fs, w)|)
  {
    ScanConcat(fs, [], w);
    AfterAllShape(fs, Scan([], w), w);
    assert Concat(fs, w) + [] == Concat(fs, w);
    assert fs + [] == fs;
  }

  /** The bytes have one reading: equal files hold equal frames. */
  lemma UniquelyDecodable(fs: seq<Frame>, gs: seq<Frame>, w: Format)
    requires Fit(fs, w) && Fit(gs, w)
    ensures Concat(fs, w) == Concat(gs, w) <==> fs == gs
  {
    ScanWritten(fs, w);
    ScanWritten(gs, w);
  }

  /** A crash while one more frame is written leaves a tail that is cut off exactly. */
  lemma ScanTorn(fs: seq<Frame>, f: Frame, n: nat, w: Format)
    requires Fit(fs, w) && |f.body| <= w.limit && n < |Encode(f, w)|
    ensures Scan(Concat(fs, w) + Encode(f, w)[..n], w) == Intact(fs, |Concat(fs, w)|)
  {
    var tail := Encode(f, w)[..n];
    assert Scan(tail, w) == Intact([], 0) by {
      if n >= HEADER_BYTES {
        assert tail[..HEADER_BYTES] == FrameHeader(f, w);
        ParseFrameHeader(f, w);
      }
    }
    ScanConcat(fs, tail, w);
    AfterAllShape(fs, Scan(tail, w), w);
    assert fs + [] == fs;
  }

  /** Conversely, whatever bytes are on disk, what Scan accepts is a written log plus a tail. */
  lemma {:induction false} ScanSound(data: Bytes, w: Format)
    requires w.limit < FORMAT_LIMIT
    ensures var s := Scan(data, w);
            s.Intact? ==> Fit(s.frames, w) && s.end <= |data| && data[..s.end] == Concat(s.frames, w)
    decreases |data|
  {
    hide ReadFrame, Encode;
    if ReadFrame(data, w).Whole? {
      var f := ReadFrame(data, w).frame;
      var rest := data[HEADER_BYTES + |f.body|..];
      ReadWhole(data, w);
      ScanSound(rest, w);
      var s := Scan(rest, w);
      if s.Intact? {
        assert Fit([f] + s.frames, w);
        assert ([f] + s.frames)[1..] == s.frames;
        assert data[..HEADER_BYTES + |f.body| + s.end] == Encode(f, w) + rest[..s.end];
      }
    }
  }

  lemma OversizeFrame(f: Frame, rest: Bytes, w: Format)
    requires w.limit < |f.body| < FORMAT_LIMIT
    ensures Scan(Encode(f, w) + rest, w) == Corrupt(0)
  {
    var tail := Encode(f, w) + rest;
    ParseFrameHeader(f, w);
    assert tail[..HEADER_BYTES] == FrameHeader(f, w);
    hide ParseHeader, FrameHeader;
  }

  /**
    Recovery refuses a frame whose body is longer than its limit, although frameRecord writes
    it without complaint: everything before it is then unreachable too.
  */
  lemma OversizeRejected(fs: seq<Frame>, f: Frame, rest: Bytes, w: Format)
    requires Fit(fs, w) && w.limit < |f.body| < FORMAT_LIMIT
    ensures Scan(Concat(fs, w) + Encode(f, w) + rest, w) == Corrupt(|Concat(fs, w)|)
  {
    OversizeFrame(f, rest, w);
    hide Scan, Encode;
    assert Concat(fs, w) + Encode(f, w) + rest == Concat(fs, w) + (Encode(f, w) + rest);
    ScanConcat(fs, Encode(f, w) + rest, w);
    AfterAllShape(fs, Corrupt(0), w);
  }

  // ---- damage

  predicate Notices(w: Format, data: Bytes, i: nat, b: byte) {
    i < |data| && data[i] != b ==> w.sum(data) != w.sum(data[i := b])
  }

  /** The checksum notices every change of one byte. */
  ghost predicate DetectsByte(w: Format) {
    forall data: Bytes, i: nat, b: byte :: Notices(w, data, i, b)
  }

  lemma CrcFormatDetectsByte(limit: nat)
    ensures DetectsByte(CrcFormat(limit))
  {
    var w := CrcFormat(limit);
    forall data: Bytes, i: nat, b: byte ensures Notices(w, data, i, b) {
      if i < |data| && data[i] != b { Crc32.CrcDetectsByte(data, i, b); }
    }
  }

  lemma UpdateSlice(s: Bytes, i: nat, b: byte, lo: nat, hi: nat)
    requires i < |s| && lo <= hi <= |s|
    ensures s[i := b][lo..hi] == if lo <= i < hi then s[lo..hi][i - lo := b] else s[lo..hi]
  {}

  /** The header and the body of a damaged frame, as the reader sees them. */
  lemma DamagedParts(f: Frame, rest: Bytes, i: nat, b: byte, w: Format)
    requires |f.body| < FORMAT_LIMIT && i < |Encode(f, w)|
    ensures var data := Encode(f, w)[i := b] + rest;
            var n := HEADER_BYTES + |f.body|;
            && |data| >= n
            && data[..HEADER_BYTES] == (if i < HEADER_BYTES then FrameHeader(f, w)[i := b] else FrameHeader(f, w))
            && data[HEADER_BYTES..n] == (if i < HEADER_BYTES then f.body else f.body[i - HEADER_BYTES := b])
  {
    var bytes := Encode(f, w);
    var n := HEADER_BYTES + |f.body|;
    var data := bytes[i := b] + rest;
    UpdateSlice(bytes, i, b, 0, HEADER_BYTES);
    UpdateSlice(bytes, i, b, HEADER_BYTES, n);
    hide FrameHeader;
    assert bytes[0..HEADER_BYTES] == FrameHeader(f, w) && bytes[HEADER_BYTES..n] == f.body;
    assert data[..HEADER_BYTES] == bytes[i := b][0..HEADER_BYTES];
    assert data[HEADER_BYTES..n] == bytes[i := b][HEADER_BYTES..n];
  }

  /** Damage before the length field shows in the header, or in the checksum when it is the kind. */
  lemma DamagedHeader(f: Frame, i: nat, b: byte, w: Format)
    requires DetectsByte(w) && |f.body| < FORMAT_LIMIT
    requires i < 16 && !(8 <= i < 12) && b != FrameHeader(f, w)[i]
    ensures var h := ParseHeader(FrameHeader(f, w)[i := b]);
            h.None? || (h.value.length == |f.body| && w.sum([h.value.kind] + f.body) != h.value.checksum)
  {
    var h := FrameHeader(f, w);
    ParseFrameHeader(f, w);
    UpdateSlice(h, i, b, 0, 4);
    UpdateSlice(h, i, b, 8, 12);
    UpdateSlice(h, i, b, 12, 16);
    if i == 5 {
      assert ([f.kind] + f.body)[0 := b] == [b] + f.body;
      assert Notices(w, [f.kind] + f.body, 0, b);
    } else if i < 4 {
      assert h[0..4] == MAGIC;
      assert h[i := b][..4][i] == b != MAGIC[i];
    } else if 12 <= i {
      assert h[12..16][i - 12 := b][i - 12] == b != h[12..16][i - 12];
    }
  }

  lemma DamagedFrameRejected(f: Frame, rest: Bytes, i: nat, b: byte, w: Format)
    requires DetectsByte(w) && |f.body| <= w.limit < FORMAT_LIMIT
    requires i < |Encode(f, w)| && !(8 <= i < 12) && b != Encode(f, w)[i]
    ensures Scan(Encode(f, w)[i := b] + rest, w) == Corrupt(0)
  {
    DamagedParts(f, rest, i, b, w);
    if i < HEADER_BYTES {
      assert Encode(f, w)[i] == FrameHeader(f, w)[i];
      DamagedHeader(f, i, b, w);
    } else {
      ParseFrameHeader(f, w);
      assert ([f.kind] + f.body)[i - 15 := b] == [f.kind] + f.body[i - 16 := b];
      assert Notices(w, [f.kind] + f.body, i - 15, b);
    }
    hide ParseHeader, FrameHeader, Encode;
  }

  /**
    Damage to one byte of a stored frame, anywhere but in its length field, is reported at the
    frame's own offset: magic, version and reserved bytes by the header check, and checksum,
    kind and body bytes by the CRC.
  */
  lemma OneByteDamageRejected(fs: seq<Frame>, f: Frame, rest: Bytes, i: nat, b: byte, limit: nat)
    requires var w := CrcFormat(limit);
             Fit(fs, w) && |f.body| <= limit && i < |Encode(f, w)| && !(8 <= i < 12) && b != Encode(f, w)[i]
    ensures var w := CrcFormat(limit);
            Scan(Concat(fs, w) + Encode(f, w)[i := b] + rest, w) == Corrupt(|Concat(fs, w)|)
  {
    var w := CrcFormat(limit);
    CrcFormatDetectsByte(limit);
    DamagedFrameRejected(f, rest, i, b, w);
    hide Scan, Encode, CrcFormat;
    assert Concat(fs, w) + Encode(f, w)[i := b] + rest == Concat(fs, w) + (Encode(f, w)[i := b] + rest);
    ScanConcat(fs, Encode(f, w)[i := b] + rest, w);
    AfterAllShape(fs, Corrupt(0), w);
  }
}
