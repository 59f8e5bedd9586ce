/** The RIFF chunk scan of load_wav (os/init/play.c) and the checks that follow it. */
module WavScan {
  import opened Common
  import opened Bytes
  import PcmPlay

  datatype Error = NotWav | BadFmt | MissingChunks | NotPcm | NeedPcm16 | TooLarge | EmptyData

  /** The locals of load_wav; dataOff is -1 until a data chunk is seen. */
  datatype Wav = Wav(audioFmt: nat, ch: nat, rate: nat, blk: nat, bits: nat, dataOff: int, dataBytes: nat)

  const NOTHING := Wav(0, 0, 0, 0, 0, -1, 0)
  const FMT: seq<byte> := [0x66, 0x6D, 0x74, 0x20]
  const DATA: seq<byte> := [0x64, 0x61, 0x74, 0x61]
  const RIFF: seq<byte> := [0x52, 0x49, 0x46, 0x46]
  const WAVE: seq<byte> := [0x57, 0x41, 0x56, 0x45]
  const MAX_SRC_BYTES := 8 * 1024 * 1024

  function U16At(b: seq<byte>, o: nat): nat
    requires o + 2 <= |b|
  {
    var lo: nat, hi: nat := b[o], b[o + 1];
    lo + 0x100 * hi
  }

  function WithFmt(w: Wav, body: seq<byte>): Wav
    requires |body| >= 16
  {
    Wav(U16At(body, 0), U16At(body, 2), Read32(body, 4), U16At(body, 12), U16At(body, 14), w.dataOff, w.dataBytes)
  }

  predicate FmtSize(n: nat) { 16 <= n <= 40 }

  /** One chunk at file position pos: where the next one starts, and what is known by then. A chunk
      may claim more bytes than the file has. */
  function Step(f: seq<byte>, pos: nat, w: Wav): (r: Result<(nat, Wav), Error>)
    requires pos + 8 <= |f|
    ensures r.Ok? ==> r.value.0 >= pos + 8
  {
    var id, size := f[pos..pos + 4], Read32(f, pos + 4);
    var next := pos + 8 + size + size % 2;
    if id == FMT then
      if !FmtSize(size) || pos + 8 + size > |f| then Err(BadFmt)
      else Ok((next, WithFmt(w, f[pos + 8..pos + 8 + size])))
    else if id == DATA then Ok((next, w.(dataOff := pos + 8, dataBytes := size)))
    else Ok((next, w))
  }

  function ScanFrom(f: seq<byte>, pos: nat, w: Wav): Result<Wav, Error>
    decreases |f| - pos
  {
    if pos + 8 > |f| then Ok(w)
    else
      match Step(f, pos, w)
      case Err(e) => Err(e)
      case Ok((next, w')) => ScanFrom(f, next, w')
  }

  method Scan(f: seq<byte>) returns (r: Result<Wav, Error>)
    ensures r == if |f| < 12 || f[..4] != RIFF || f[8..12] != WAVE then Err(NotWav) else ScanFrom(f, 12, NOTHING)
  {
    hide Read32, WithFmt;
    if |f| < 12 || f[..4] != RIFF || f[8..12] != WAVE { return Err(NotWav); }
    var pos, w := 12, NOTHING;
    while pos + 8 <= |f|
      invariant 12 <= pos
      invariant ScanFrom(f, pos, w) == ScanFrom(f, 12, NOTHING)
      decreases |f| - pos
    {
      var id, size := f[pos..pos + 4], Read32(f, pos + 4);
      ghost var step := Step(f, pos, w);
      pos := pos + 8;
      if id == FMT {
        if size < 16 || size > 40 || pos + size > |f| { return Err(BadFmt); }
        w := WithFmt(w, f[pos..pos + size]);
      } else if id == DATA {
        w := w.(dataOff := pos, dataBytes := size);
      }
      pos := pos + size + size % 2;
      assert step == Ok((pos, w));
    }
    r := Ok(w);
  }

  // ----- a well-formed file -----

  datatype Chunk = Chunk(id: seq<byte>, body: seq<byte>)

  ghost predicate Framed(c: Chunk) { |c.id| == 4 && |c.body| < W }

  // load_wav takes fmt chunks of 16 to 40 bytes.
  ghost predicate WellFormed(c: Chunk) { Framed(c) && (c.id == FMT ==> 16 <= |c.body| <= 40) }

  function Emit(c: Chunk): (b: seq<byte>)
    ensures |b| == |c.id| + 4 + |c.body| + |c.body| % 2
  {
    c.id + U32(|c.body|) + c.body + if |c.body| % 2 == 1 then [0] else []
  }

  function EmitAll(cs: seq<Chunk>): seq<byte> {
    if cs == [] then [] else Emit(cs[0]) + EmitAll(cs[1..])
  }

  function Size(cs: seq<Chunk>): nat {
    if cs == [] then 0 else |Emit(cs[0])| + Size(cs[1..])
  }

  // What chunk c at file offset off makes of w.
  function Seen(w: Wav, c: Chunk, off: nat): Wav {
    if c.id == FMT && |c.body| >= 16 then WithFmt(w, c.body)
    else if c.id == DATA then w.(dataOff := off + 8, dataBytes := |c.body|)
    else w
  }

  function SeenAll(w: Wav, cs: seq<Chunk>, off: nat): Wav
    decreases |cs|
  {
    if cs == [] then w else SeenAll(Seen(w, cs[0], off), cs[1..], off + |Emit(cs[0])|)
  }

  lemma EmittedAt(pre: seq<byte>, c: Chunk, rest: seq<byte>)
    requires Framed(c)
    ensures var f, p := pre + Emit(c) + rest, |pre|;
            && p + 8 + |c.body| <= |f|
            && f[p..p + 4] == c.id && Read32(f, p + 4) == |c.body| && f[p + 8..p + 8 + |c.body|] == c.body
  {
    hide U32, Read32;
    var f, p := pre + Emit(c) + rest, |pre|;
    var pad: seq<byte> := if |c.body| % 2 == 1 then [0] else [];
    var u := U32(|c.body|);
    assert f == pre + c.id + u + c.body + (pad + rest);
    assert forall i | 0 <= i < 4 :: f[p + 4 + i] == u[i];
    Read32Back(f, p + 4, |c.body|);
  }

  lemma StepOne(pre: seq<byte>, c: Chunk, rest: seq<byte>, w: Wav)
    requires Framed(c)
    ensures |pre| + 8 <= |pre + Emit(c) + rest|
    ensures Step(pre + Emit(c) + rest, |pre|, w) ==
            if WellFormed(c) then Ok((|pre| + |Emit(c)|, Seen(w, c, |pre|))) else Err(BadFmt)
  {
    hide Read32, WithFmt;
    EmittedAt(pre, c, rest);
  }

  /** The scan of a chunk list sees each chunk once, wherever the odd ones are padded, and refuses the file exactly for
      a fmt chunk of another size. */
  lemma {:induction false} ScanSeesAll(pre: seq<byte>, cs: seq<Chunk>, w: Wav)
    requires forall i | 0 <= i < |cs| :: Framed(cs[i])
    ensures ScanFrom(pre + EmitAll(cs), |pre|, w) ==
            if forall i | 0 <= i < |cs| :: WellFormed(cs[i]) then Ok(SeenAll(w, cs, |pre|)) else Err(BadFmt)
    decreases |cs|
  {
    hide Step, Seen, Emit, WellFormed;
    if cs == [] {
      assert pre + EmitAll(cs) == pre;
    } else {
      StepOne(pre, cs[0], EmitAll(cs[1..]), w);
      assert pre + EmitAll(cs) == pre + Emit(cs[0]) + EmitAll(cs[1..]);
      ScanSeesAll(pre + Emit(cs[0]), cs[1..], Seen(w, cs[0], |pre|));
      assert (forall i | 0 <= i < |cs| :: WellFormed(cs[i])) <==>
             WellFormed(cs[0]) && forall i | 0 <= i < |cs[1..]| :: WellFormed(cs[1..][i]);
    }
  }

  ghost predicate LastOf(cs: seq<Chunk>, id: seq<byte>, j: nat) {
    j < |cs| && cs[j].id == id && forall i | j < i < |cs| :: cs[i].id != id
  }

  lemma {:induction false} NoneSeen(w: Wav, cs: seq<Chunk>, off: nat, id: seq<byte>)
    requires forall i | 0 <= i < |cs| :: cs[i].id != id
    ensures id == DATA ==> SeenAll(w, cs, off).dataOff == w.dataOff && SeenAll(w, cs, off).dataBytes == w.dataBytes
    ensures id == FMT ==> SeenAll(w, cs, off).(dataOff := w.dataOff, dataBytes := w.dataBytes) == w
    decreases |cs|
  {
    if cs != [] {
      var w' := Seen(w, cs[0], off);
      NoneSeen(w', cs[1..], off + |Emit(cs[0])|, id);
    }
  }

  // Where the data of a data chunk lies.
  lemma DataHere(pre: seq<byte>, c: Chunk, rest: seq<byte>, w: Wav)
    requires WellFormed(c) && c.id == DATA
    ensures var r, f := Seen(w, c, |pre|), pre + Emit(c) + rest;
            && r.dataBytes == |c.body| && 0 <= r.dataOff && r.dataOff + r.dataBytes <= |f|
            && f[r.dataOff..r.dataOff + r.dataBytes] == c.body
  {
    hide Emit, Read32, WithFmt;
    EmittedAt(pre, c, rest);
  }

  lemma {:induction false} LastDataSeen(pre: seq<byte>, cs: seq<Chunk>, w: Wav, j: nat)
    requires (forall i | 0 <= i < |cs| :: WellFormed(cs[i])) && LastOf(cs, DATA, j)
    ensures var r, f := SeenAll(w, cs, |pre|), pre + EmitAll(cs);
            && r.dataBytes == |cs[j].body| && 0 <= r.dataOff && r.dataOff + r.dataBytes <= |f|
            && f[r.dataOff..r.dataOff + r.dataBytes] == cs[j].body
    decreases |cs|
  {
    hide Emit, Seen, WellFormed;
    var c := cs[0];
    var w', pre' := Seen(w, c, |pre|), pre + Emit(c);
    assert pre + EmitAll(cs) == pre' + EmitAll(cs[1..]);
    if j > 0 {
      LastDataSeen(pre', cs[1..], w', j - 1);
    } else {
      NoneSeen(w', cs[1..], |pre'|, DATA);
      DataHere(pre, c, EmitAll(cs[1..]), w);
    }
  }

  lemma {:induction false} LastFmtSeen(cs: seq<Chunk>, w: Wav, off: nat, j: nat)
    requires (forall i | 0 <= i < |cs| :: WellFormed(cs[i])) && LastOf(cs, FMT, j)
    ensures |cs[j].body| >= 16 && SeenAll(w, cs, off) == WithFmt(SeenAll(w, cs, off), cs[j].body)
    decreases |cs|
  {
    var w' := Seen(w, cs[0], off);
    if j > 0 {
      LastFmtSeen(cs[1..], w', off + |Emit(cs[0])|, j - 1);
    } else {
      NoneSeen(w', cs[1..], off + |Emit(cs[0])|, FMT);
    }
  }

  /** In a well-formed WAV file the last fmt chunk and the last data chunk count, whatever chunks
      stand around them, and the data offset is where the body of that data chunk lies. */
  lemma LastChunksCount(head: seq<byte>, cs: seq<Chunk>, fmt: nat, data: nat)
    requires |head| == 12 && forall i | 0 <= i < |cs| :: WellFormed(cs[i])
    requires LastOf(cs, FMT, fmt) && LastOf(cs, DATA, data)
    ensures var f := head + EmitAll(cs);
            && ScanFrom(f, 12, NOTHING).Ok?
            && var w := ScanFrom(f, 12, NOTHING).value;
            && |cs[fmt].body| >= 16 && w == WithFmt(w, cs[fmt].body)
            && w.dataBytes == |cs[data].body| && 0 <= w.dataOff && w.dataOff + w.dataBytes <= |f|
            && f[w.dataOff..w.dataOff + w.dataBytes] == cs[data].body
  {
    ScanSeesAll(head, cs, NOTHING);
    LastDataSeen(head, cs, NOTHING, data);
    LastFmtSeen(cs, NOTHING, 12, fmt);
  }

  // ----- the checks -----

  function Check(w: Wav): Result<nat, Error> {
    if w.dataOff < 0 || w.rate == 0 || w.ch == 0 || w.bits == 0 then Err(MissingChunks)
    else if w.audioFmt != 1 && w.audioFmt != 0xFFFE then Err(NotPcm)
    else if w.bits != 16 || w.ch < 1 || w.ch > 2 || w.blk == 0 then Err(NeedPcm16)
    else if w.dataBytes > MAX_SRC_BYTES then Err(TooLarge)
    else if w.dataBytes / w.blk == 0 then Err(EmptyData)
    else Ok(w.dataBytes / w.blk)
  }

  /** What the checks let through is what the resampler needs. */
  lemma CheckedIsPlayable(f: seq<byte>, w: Wav, src: seq<int>)
    requires ScanFrom(f, 12, NOTHING) == Ok(w) && Check(w).Ok? && w.blk == 2 * w.ch
    requires |src| == Check(w).value * w.ch && forall i | 0 <= i < |src| :: PcmPlay.IsI16(src[i])
    ensures PcmPlay.Playable(src, Check(w).value, w.ch, w.rate)
  {
    RateFits(f, 12, NOTHING);
    var frames := Check(w).value;
    assert frames * w.blk <= w.dataBytes;
    assert frames * w.blk == 2 * w.ch * frames;
  }

  lemma {:induction false} RateFits(f: seq<byte>, pos: nat, w: Wav)
    requires w.rate < W
    ensures ScanFrom(f, pos, w).Ok? ==> ScanFrom(f, pos, w).value.rate < W
    decreases |f| - pos
  {
    if pos + 8 <= |f| && Step(f, pos, w).Ok? {
      RateFits(f, Step(f, pos, w).value.0, Step(f, pos, w).value.1);
    }
  }

  // Bytes o and o + 1 of b, the lower one first.
  function Half(b: seq<byte>, o: nat): nat
    requires o + 2 <= |b|
  {
    b[o] as int + 0x100 * b[o + 1] as int
  }

  /** Which files with well-formed chunks load_wav goes on to play, and with how many frames: the last fmt chunk must
      say PCM of one or two channels of 16 bits, a rate and a block size, and the last data chunk hold a block at least
      and eight megabytes at most. */
  lemma AcceptedFiles(head: seq<byte>, cs: seq<Chunk>, fmt: nat, data: nat)
    requires |head| == 12 && forall i | 0 <= i < |cs| :: WellFormed(cs[i])
    requires LastOf(cs, FMT, fmt) && LastOf(cs, DATA, data)
    ensures var f, b, size := head + EmitAll(cs), cs[fmt].body, |cs[data].body|;
            && |b| >= 16 && ScanFrom(f, 12, NOTHING).Ok?
            && var w, block := ScanFrom(f, 12, NOTHING).value, Half(b, 12);
            && w.ch == Half(b, 2) && w.rate == Half(b, 4) + 0x1_0000 * Half(b, 6)
            && (Check(w).Ok? <==>
                && Half(b, 0) in {1, 65534} && Half(b, 2) in {1, 2} && Half(b, 14) == 16
                && (Half(b, 4) != 0 || Half(b, 6) != 0)
                && 0 < block <= size <= 8_388_608)
            && (Check(w).Ok? ==> Check(w).value == size / block)
  {
    hide Emit, ScanFrom;
    LastChunksCount(head, cs, fmt, data);
    var b, size := cs[fmt].body, |cs[data].body|;
    var w := ScanFrom(head + EmitAll(cs), 12, NOTHING).value;
    assert w.blk == Half(b, 12) && w.rate == Half(b, 4) + 0x1_0000 * Half(b, 6);
    if w.blk > 0 {
      BlockFits(size, w.blk);
    }
  }

  lemma BlockFits(size: nat, block: nat)
    requires block > 0
    ensures size / block == 0 <==> size < block
  {}

  /** The chunk names in characters. */
  lemma NamesAre()
    ensures FMT == ['f' as int, 'm' as int, 't' as int, ' ' as int]
    ensures DATA == ['d' as int, 'a' as int, 't' as int, 'a' as int]
    ensures RIFF == ['R' as int, 'I' as int, 'F' as int, 'F' as int]
    ensures WAVE == ['W' as int, 'A' as int, 'V' as int, 'E' as int]
  {}
}
