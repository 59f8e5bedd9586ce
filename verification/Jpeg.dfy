/** jpeg_info of os/param/up_param.py: width, height and component count from the frame header of a
    JPEG file (sections B.1.1.4 and B.2.2 of ITU-T T.81). */
module Jpeg {
  import opened Common

  datatype Error = NotJpeg | NoFrame | Truncated

  datatype Size = Size(width: nat, height: nat, components: nat)

  // SOI, EOI, TEM and the restart markers have no length.
  predicate Standalone(m: byte) { m == 0xD8 || m == 0xD9 || m == 0x01 || 0xD0 <= m <= 0xD7 }

  predicate FrameMarker(m: byte) { 0xC0 <= m <= 0xCF && m != 0xC4 && m != 0xC8 && m != 0xCC }

  function U16(d: seq<byte>, i: nat): nat
    requires i + 2 <= |d|
  {
    var hi: nat, lo: nat := d[i], d[i + 1];
    0x100 * hi + lo
  }

  function FrameAt(d: seq<byte>, i: nat): Result<Size, Error> {
    if i + 8 > |d| then Err(Truncated)
    else
      var n: nat := d[i + 7];
      Ok(Size(U16(d, i + 5), U16(d, i + 3), n))
  }

  /** The scan from index i on. A segment length counts from its own first byte; a length of 0 or 1
      is taken as it is. */
  function Scan(d: seq<byte>, i: nat): Result<Size, Error>
    decreases |d| - i
  {
    if i + 4 > |d| then Err(NoFrame)
    else if d[i] != 0xFF then Scan(d, i + 1)
    else
      var m := d[i + 1];
      if Standalone(m) then Scan(d, i + 2)
      else if FrameMarker(m) then FrameAt(d, i + 2)
      else Scan(d, i + 2 + U16(d, i + 2))
  }

  function Info(d: seq<byte>): Result<Size, Error> {
    if |d| < 2 || d[..2] != [0xFF, 0xD8] then Err(NotJpeg) else Scan(d, 2)
  }

  /** The loop of jpeg_info; it moves on by at least one byte a turn. */
  method JpegInfo(d: seq<byte>) returns (r: Result<Size, Error>)
    ensures r == Info(d)
  {
    if |d| < 2 || d[..2] != [0xFF, 0xD8] { return Err(NotJpeg); }
    var i := 2;
    while i + 4 <= |d|
      invariant Scan(d, i) == Scan(d, 2)
      decreases |d| - i
    {
      if d[i] != 0xFF {
        i := i + 1;
        continue;
      }
      var marker := d[i + 1];
      i := i + 2;
      if Standalone(marker) { continue; }
      if i + 2 > |d| { break; }
      var seglen := U16(d, i);
      if FrameMarker(marker) {
        return FrameAt(d, i);
      }
      i := i + seglen;
    }
    r := Err(NoFrame);
  }

  // ----- well-formed files -----

  /** A marker segment: marker code and parameters. */
  datatype Segment = Segment(marker: byte, body: seq<byte>)

  // Not a frame header; 0x00 and 0xFF are no marker codes.
  predicate Other(s: Segment) {
    && !Standalone(s.marker) && !FrameMarker(s.marker) && s.marker != 0 && s.marker != 0xFF
    && |s.body| + 2 < 0x1_0000
  }

  function BE16(n: nat): (b: seq<byte>)
    requires n < 0x1_0000
    ensures |b| == 2
  {
    [n / 0x100, n % 0x100]
  }

  function Emit(s: Segment): (b: seq<byte>)
    requires |s.body| + 2 < 0x1_0000
    ensures |b| == |s.body| + 4
  {
    [0xFF, s.marker] + BE16(|s.body| + 2) + s.body
  }

  function EmitAll(ss: seq<Segment>): seq<byte>
    requires forall i | 0 <= i < |ss| :: Other(ss[i])
  {
    if ss == [] then []
    else
      assert Other(ss[0]);
      Emit(ss[0]) + EmitAll(ss[1..])
  }

  /** A frame header: precision, lines, samples per line, and the component parameters. */
  datatype Frame = Frame(marker: byte, precision: byte, height: nat, width: nat, params: seq<byte>, components: byte)

  ghost predicate ValidFrame(f: Frame) {
    && FrameMarker(f.marker) && f.height < 0x1_0000 && f.width < 0x1_0000
    && |f.params| == 3 * (f.components as int)
  }

  function FrameBody(f: Frame): seq<byte>
    requires f.height < 0x1_0000 && f.width < 0x1_0000
  {
    [f.precision] + BE16(f.height) + BE16(f.width) + [f.components] + f.params
  }

  lemma SkipSegment(pre: seq<byte>, s: Segment, rest: seq<byte>)
    requires Other(s) && |rest| >= 4
    ensures Scan(pre + Emit(s) + rest, |pre|) == Scan(pre + Emit(s) + rest, |pre| + |Emit(s)|)
  {
    hide Scan;
    SegmentAt(pre, s, rest);
    SkipAt(pre + Emit(s) + rest, |pre|);
  }

  lemma SkipAt(d: seq<byte>, p: nat)
    requires p + 4 <= |d| && d[p] == 0xFF && !Standalone(d[p + 1]) && !FrameMarker(d[p + 1])
    ensures Scan(d, p) == Scan(d, p + 2 + U16(d, p + 2))
  {}

  lemma SegmentAt(pre: seq<byte>, s: Segment, rest: seq<byte>)
    requires |s.body| + 2 < 0x1_0000
    ensures var d, p := pre + Emit(s) + rest, |pre|;
            && p + 4 + |s.body| <= |d|
            && d[p] == 0xFF && d[p + 1] == s.marker && U16(d, p + 2) == |s.body| + 2
            && forall k | 0 <= k < |s.body| :: d[p + 4 + k] == s.body[k]
  {
    var d, p, n := pre + Emit(s) + rest, |pre|, |s.body| + 2;
    var len := BE16(n);
    assert d == pre + [0xFF, s.marker] + len + s.body + rest;
    assert d[p + 2] == len[0] && d[p + 3] == len[1];
    assert 0x100 * (n / 0x100) + n % 0x100 == n;
  }

  lemma {:induction false} SkipSegments(pre: seq<byte>, ss: seq<Segment>, rest: seq<byte>)
    requires (forall i | 0 <= i < |ss| :: Other(ss[i])) && |rest| >= 4
    ensures Scan(pre + EmitAll(ss) + rest, |pre|) == Scan(pre + EmitAll(ss) + rest, |pre + EmitAll(ss)|)
    decreases |ss|
  {
    hide Scan, Emit;
    if ss != [] {
      var tail := EmitAll(ss[1..]);
      SkipSegment(pre, ss[0], tail + rest);
      SkipSegments(pre + Emit(ss[0]), ss[1..], rest);
      assert pre + EmitAll(ss) + rest == pre + Emit(ss[0]) + (tail + rest) == pre + Emit(ss[0]) + tail + rest;
    }
  }

  lemma ReadsFrame(pre: seq<byte>, f: Frame, rest: seq<byte>)
    requires ValidFrame(f)
    ensures |FrameBody(f)| + 2 < 0x1_0000
    ensures Scan(pre + Emit(Segment(f.marker, FrameBody(f))) + rest, |pre|) == Ok(Size(f.width, f.height, f.components))
  {
    var body := FrameBody(f);
    var d, p := pre + Emit(Segment(f.marker, body)) + rest, |pre|;
    SegmentAt(pre, Segment(f.marker, body), rest);
    assert body[1] == BE16(f.height)[0] && body[2] == BE16(f.height)[1];
    assert body[3] == BE16(f.width)[0] && body[4] == BE16(f.width)[1] && body[5] == f.components;
    assert d[p + 4 + 1] == f.height / 0x100 && d[p + 4 + 2] == f.height % 0x100;
    assert d[p + 4 + 3] == f.width / 0x100 && d[p + 4 + 4] == f.width % 0x100;
    assert d[p + 4 + 5] == f.components;
    assert U16(d, p + 2 + 3) == f.height && U16(d, p + 2 + 5) == f.width;
  }

  /** After SOI and any list of other segments the first frame header decides, whatever follows it. */
  lemma FirstFrameDecides(ss: seq<Segment>, f: Frame, rest: seq<byte>)
    requires (forall i | 0 <= i < |ss| :: Other(ss[i])) && ValidFrame(f)
    ensures |FrameBody(f)| + 2 < 0x1_0000
    ensures Info([0xFF, 0xD8] + EmitAll(ss) + Emit(Segment(f.marker, FrameBody(f))) + rest) ==
            Ok(Size(f.width, f.height, f.components))
  {
    hide Scan, EmitAll, Emit;
    var soi: seq<byte> := [0xFF, 0xD8];
    ReadsFrame(soi + EmitAll(ss), f, rest);
    var sof := Emit(Segment(f.marker, FrameBody(f)));
    SkipSegments(soi, ss, sof + rest);
    assert soi + EmitAll(ss) + (sof + rest) == soi + EmitAll(ss) + sof + rest;
    assert (soi + EmitAll(ss) + sof + rest)[..2] == soi;
  }

  // ----- fill bytes -----

  // Any marker may be preceded by fill bytes (section B.1.1.2 of ITU-T T.81).
  function Fill(n: nat): (b: seq<byte>)
    ensures |b| == n
  {
    seq(n, _ => 0xFF)
  }

  function FrameBytes(f: Frame): seq<byte>
    requires ValidFrame(f)
  {
    Emit(Segment(f.marker, FrameBody(f)))
  }

  // A file whose first frame header has n fill bytes before it.
  function Filled(ss: seq<Segment>, n: nat, f: Frame, rest: seq<byte>): seq<byte>
    requires (forall i | 0 <= i < |ss| :: Other(ss[i])) && ValidFrame(f)
  {
    [0xFF, 0xD8] + EmitAll(ss) + Fill(n) + FrameBytes(f) + rest
  }

  // Three fill bytes read as a segment of 65535 bytes.
  const FILL_JUMP := 65537

  lemma FillJumps(d: seq<byte>, p: nat)
    requires p + 4 <= |d| && d[p] == d[p + 1] == d[p + 2] == d[p + 3] == 0xFF
    ensures Scan(d, p) == Scan(d, p + FILL_JUMP)
  {}

  lemma {:induction false} NoMarkerLeft(d: seq<byte>, p: nat)
    requires forall k | p <= k < |d| :: d[k] != 0xFF
    ensures Scan(d, p) == Err(NoFrame)
    decreases |d| - p
  {
    if p + 4 <= |d| {
      NoMarkerLeft(d, p + 1);
    }
  }

  /** A frame header has one component at least (section B.2.2 of ITU-T T.81). */
  ghost predicate LegalFrame(f: Frame) { ValidFrame(f) && f.components >= 1 }

  // One line of one sample of one component.
  const TINY := Frame(0xC0, 8, 1, 1, [1, 0x11, 0], 1)

  // That frame header, preceded by fill bytes, at the end of a file.
  ghost predicate TinyAtEnd(d: seq<byte>, p: nat, n: nat) {
    && |d| == p + n + 13
    && (forall k | p <= k <= p + n :: d[k] == 0xFF)
    && d[p + n + 1] == 0xC0 && d[p + n + 2] == 0 && forall k | p + n < k < |d| :: d[k] != 0xFF
  }

  lemma {:induction false} FillHides(d: seq<byte>, p: nat, n: nat)
    requires TinyAtEnd(d, p, n) && n % FILL_JUMP != 0
    ensures Scan(d, p) == Err(NoFrame)
    decreases n
  {
    if n < 3 {
      assert U16(d, p + 2) >= 0xC000;
      SkipAt(d, p);
      NoMarkerLeft(d, p + 2 + U16(d, p + 2));
    } else {
      FillJumps(d, p);
      if n > FILL_JUMP {
        FillHides(d, p + FILL_JUMP, n - FILL_JUMP);
      } else {
        NoMarkerLeft(d, p + FILL_JUMP);
      }
    }
  }

  lemma {:induction false} FillPasses(d: seq<byte>, p: nat, n: nat)
    requires n % FILL_JUMP == 0 && p + n + 1 <= |d| && forall k | p <= k < p + n :: d[k] == 0xFF
    ensures Scan(d, p) == Scan(d, p + n)
    decreases n
  {
    hide Scan;
    if n > 0 {
      FillJumps(d, p);
      FillPasses(d, p + FILL_JUMP, n - FILL_JUMP);
    }
  }

  lemma FilledReads(ss: seq<Segment>, n: nat, f: Frame, rest: seq<byte>)
    requires (forall i | 0 <= i < |ss| :: Other(ss[i])) && ValidFrame(f) && n % FILL_JUMP == 0
    ensures Info(Filled(ss, n, f, rest)) == Ok(Size(f.width, f.height, f.components))
  {
    hide Scan, EmitAll, Emit, FrameBody;
    var soi: seq<byte> := [0xFF, 0xD8];
    var front := soi + EmitAll(ss);
    var d := Filled(ss, n, f, rest);
    assert d == front + (Fill(n) + FrameBytes(f) + rest);
    SkipSegments(soi, ss, Fill(n) + FrameBytes(f) + rest);
    FillPasses(d, |front|, n);
    ReadsFrame(front + Fill(n), f, rest);
    assert d[..2] == soi;
  }

  lemma TinyBytes()
    ensures LegalFrame(TINY) && FrameBytes(TINY) == [0xFF, 0xC0, 0, 11, 8, 0, 1, 0, 1, 1, 1, 0x11, 0]
  {}

  lemma TinyShape(front: seq<byte>, n: nat, tiny: seq<byte>)
    requires tiny == [0xFF, 0xC0, 0, 11, 8, 0, 1, 0, 1, 1, 1, 0x11, 0]
    ensures TinyAtEnd(front + (Fill(n) + tiny), |front|, n)
  {
    var d, p := front + (Fill(n) + tiny), |front|;
    forall k | p <= k < |d| ensures d[k] == if k < p + n then 0xFF else tiny[k - p - n] {
      assert d[k] == (Fill(n) + tiny)[k - p];
    }
    assert d[p + n] == tiny[0] && d[p + n + 1] == tiny[1] && d[p + n + 2] == tiny[2];
  }

  lemma FilledFails(ss: seq<Segment>, n: nat)
    requires (forall i | 0 <= i < |ss| :: Other(ss[i])) && n % FILL_JUMP != 0
    ensures LegalFrame(TINY) && Info(Filled(ss, n, TINY, [])) == Err(NoFrame)
  {
    hide Scan, EmitAll, Emit, FrameBytes, Fill, TinyAtEnd;
    TinyBytes();
    var front := [0xFF, 0xD8] + EmitAll(ss);
    var tail := Fill(n) + FrameBytes(TINY);
    assert Filled(ss, n, TINY, []) == front + tail;
    assert |tail| >= 4;
    TinyShape(front, n, FrameBytes(TINY));
    SkipSegments([0xFF, 0xD8], ss, tail);
    FillHides(front + tail, |front|, n);
    assert (front + tail)[..2] == [0xFF, 0xD8];
  }

  /** Fill bytes before the frame header are not skipped as such: whatever legal frame and whatever follows it, the
      header is found exactly when their number is a multiple of 65537, none at all being the case that occurs. */
  lemma FillBytesMislead(ss: seq<Segment>, n: nat)
    requires forall i | 0 <= i < |ss| :: Other(ss[i])
    ensures (forall f, rest | LegalFrame(f) ::
               Info(Filled(ss, n, f, rest)) == Ok(Size(f.width, f.height, f.components))) <==> n % FILL_JUMP == 0
  {
    hide Info, Filled;
    if n % FILL_JUMP == 0 {
      forall f, rest | LegalFrame(f)
        ensures Info(Filled(ss, n, f, rest)) == Ok(Size(f.width, f.height, f.components))
      {
        FilledReads(ss, n, f, rest);
      }
    } else {
      FilledFails(ss, n);
    }
  }

  // ----- the codes -----

  /** The markers without a length are SOI, EOI, TEM and RST0 to RST7; frames start with SOF0 to SOF15, of which DHT,
      JPG and DAC have the codes 0xC4, 0xC8 and 0xCC (table B.1 of ITU-T T.81). */
  lemma MarkersAre(m: byte)
    ensures Standalone(m) <==> m in {0xD8, 0xD9, 0x01, 0xD0, 0xD1, 0xD2, 0xD3, 0xD4, 0xD5, 0xD6, 0xD7}
    ensures FrameMarker(m) <==>
            m in {0xC0, 0xC1, 0xC2, 0xC3, 0xC5, 0xC6, 0xC7, 0xC9, 0xCA, 0xCB, 0xCD, 0xCE, 0xCF}
  {}

  lemma FrameAtEight(d: seq<byte>)
    requires |d| == 27 && d[8] == 0xFF && d[9] == 0xC2 && d[13] == 1 && d[14] == 2 && d[15] == 2 && d[16] == 3
    requires d[17] == 3
    ensures Scan(d, 8) == Ok(Size(515, 258, 3))
  {}

  /** A small file byte by byte: SOI, an application segment, and a frame of 515 by 258 samples of three components. */
  lemma SmallFile(d: seq<byte>)
    requires d == [0xFF, 0xD8, 0xFF, 0xE0, 0, 4, 0x4A, 0x46, 0xFF, 0xC2, 0, 17, 8, 1, 2, 2, 3, 3, 1, 0x22, 0,
                   2, 0x11, 1, 3, 0x11, 1]
    ensures Info(d) == Ok(Size(515, 258, 3))
  {
    hide Scan;
    assert d[..2] == [0xFF, 0xD8];
    assert U16(d, 4) == 4;
    SkipAt(d, 2);
    FrameAtEight(d);
  }

  /** Bytes between segments are passed over; a frame header that the file breaks off is found, and cannot be read. */
  lemma TornFile(d: seq<byte>)
    requires d == [0xFF, 0xD8, 0, 0xFF, 0xC0, 0, 17]
    ensures Info(d) == Err(Truncated)
  {
    assert d[..2] == [0xFF, 0xD8];
    assert Scan(d, 3) == Err(Truncated);
  }
}
