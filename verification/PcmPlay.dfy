/** The sample path of os/init/play.c: the resampler of load_wav and the write loop of write_pcm. */
module PcmPlay {
  import opened Arith
  import opened Common

  const RATE := 48000
  const PERIOD := 960

  // Twice this number of frames wraps to 0 in a 32-bit unsigned.
  const WRAP := 0x8000_0000

  // ----- machine integers -----

  function ToI32(x: int): int { (x + 0x8000_0000) % 0x1_0000_0000 - 0x8000_0000 }

  function ToI16(x: int): int { (x + 0x8000) % 0x1_0000 - 0x8000 }

  predicate IsI16(x: int) { -0x8000 <= x < 0x8000 }

  // C division, towards zero.
  function TruncDiv(a: int, b: int): int
    requires b > 0
  {
    if a >= 0 then a / b else -((-a) / b)
  }

  // ----- the resampler -----

  /** The rounded number of output frames, before it is stored in an unsigned. */
  function RoundedFrames(frames: nat, rate: nat): nat
    requires rate > 0
  {
    (frames * RATE + rate / 2) / rate
  }

  function OutFrames(frames: nat, rate: nat): (n: nat)
    requires rate > 0
    ensures n > 0
  {
    var n := ToU32(RoundedFrames(frames, rate));
    if n == 0 then 1 else n
  }

  /** How many frames the file makes at the output rate: the rounded number, or one for a file too short for one. */
  function FramesWanted(frames: nat, rate: nat): (n: nat)
    requires rate > 0
    ensures n > 0
  {
    if RoundedFrames(frames, rate) == 0 then 1 else RoundedFrames(frames, rate)
  }

  /** The number of frames is the source's length at the output rate, to the nearest whole number. */
  lemma CountIsNearest(frames: nat, rate: nat)
    requires rate > 0
    ensures var excess := RoundedFrames(frames, rate) * rate - frames * 48000;
            -(rate as int) <= 2 * excess <= rate
  {
    var n := frames * RATE + rate / 2;
    assert n == n / rate * rate + n % rate;
  }

  // The count is cut to 32 bits.
  lemma CountIsCut(frames: nat, rate: nat)
    requires rate > 0
    ensures FramesWanted(frames, rate) < 0x1_0000_0000 ==> OutFrames(frames, rate) == FramesWanted(frames, rate)
    ensures FramesWanted(frames, rate) >= 0x1_0000_0000 ==> OutFrames(frames, rate) < FramesWanted(frames, rate)
  {
    hide RoundedFrames;
  }

  /** 89479 mono frames at 1 Hz: all but the first 24704 of more than 2^32 output frames are dropped. */
  lemma EndOfFileDropped()
    ensures FramesWanted(89479, 1) == 4_294_992_000 && OutFrames(89479, 1) == 24704
    ensures Playable(seq(89479, _ => 0), 89479, 1, 1)
  {}

  // What load_wav has checked, for a block of two bytes per channel in at most MAX_SRC_BYTES.
  ghost predicate Playable(src: seq<int>, frames: nat, ch: nat, rate: nat) {
    && 1 <= ch <= 2 && 1 <= frames && 2 * ch * frames <= 8 * 1024 * 1024
    && |src| == frames * ch
    && 1 <= rate < 0x1_0000_0000
    && forall i | 0 <= i < |src| :: IsI16(src[i])
  }

  // Sample k of the left (0) or right (1) side; mono gives both.
  function SourceAt(src: seq<int>, ch: nat, k: nat, side: nat): int
    requires 1 <= ch <= 2 && side < 2 && k * ch + ch <= |src|
  {
    if ch == 1 then src[k] else src[k * 2 + side]
  }

  function Mix(a: int, b: int, frac: nat): int { TruncDiv(a * (RATE - frac) + b * frac, RATE) }

  lemma SourceIndexInRange(frames: nat, rate: nat, i: nat)
    requires frames > 0 && rate > 0 && i < OutFrames(frames, rate)
    ensures i * rate / RATE < frames
  {
    var d := RoundedFrames(frames, rate);
    if i > 0 {
      assert i + 1 <= d;
      var num := frames * RATE + rate / 2;
      assert d * rate <= num by { assert num == d * rate + num % rate; }
      MulLe(i + 1, d, rate);
      assert (i + 1) * rate == i * rate + rate;
    }
  }

  /** The interpolated sample lies between its neighbours, and no product or sum leaves an int. */
  lemma MixIsBetween(a: int, b: int, frac: nat)
    requires IsI16(a) && IsI16(b) && frac < RATE
    ensures -0x8000_0000 <= a * (RATE - frac) < 0x8000_0000
    ensures -0x8000_0000 <= b * frac < 0x8000_0000
    ensures -0x8000_0000 <= a * (RATE - frac) + b * frac < 0x8000_0000
    ensures (a <= b ==> a <= Mix(a, b, frac) <= b) && (b <= a ==> b <= Mix(a, b, frac) <= a)
  {
    var lo, hi := if a <= b then a else b, if a <= b then b else a;
    ScaleInterval(lo, a, hi, RATE - frac);
    ScaleInterval(lo, b, hi, frac);
    assert lo * (RATE - frac) + lo * frac == lo * RATE;
    assert hi * (RATE - frac) + hi * frac == hi * RATE;
    ScaleInterval(-0x8000, a, 0x7FFF, RATE - frac);
    ScaleInterval(-0x8000, b, 0x7FFF, frac);
    TruncDivBetween(lo, a * (RATE - frac) + b * frac, hi);
  }

  lemma TruncDivBetween(lo: int, s: int, hi: int)
    requires lo * RATE <= s <= hi * RATE
    ensures lo <= TruncDiv(s, RATE) <= hi
  {}

  datatype Frame = Frame(l: int, r: int)

  // The frame num/RATE source frames into the input; past the last source frame that one is held.
  function OutputAt(src: seq<int>, frames: nat, ch: nat, num: nat): Frame
    requires 1 <= ch <= 2 && |src| == frames * ch && num / RATE < frames
  {
    var si := num / RATE;
    var sj := if si + 1 < frames then si + 1 else si;
    FrameFits(frames, ch, si);
    FrameFits(frames, ch, sj);
    Frame(Mix(SourceAt(src, ch, si, 0), SourceAt(src, ch, sj, 0), num % RATE),
          Mix(SourceAt(src, ch, si, 1), SourceAt(src, ch, sj, 1), num % RATE))
  }

  /** m is s / 48000, cut towards zero. */
  predicate TowardsZero(m: int, s: int) {
    && -48000 < s - 48000 * m < 48000
    && (s >= 0 ==> 0 <= 48000 * m <= s) && (s <= 0 ==> s <= 48000 * m <= 0)
  }

  lemma MixIsTowardsZero(a: int, b: int, frac: nat)
    requires frac < RATE
    ensures TowardsZero(Mix(a, b, frac), a * (48000 - frac) + b * frac)
  {
    QuotientTowardsZero(a * (RATE - frac) + b * frac);
  }

  lemma QuotientTowardsZero(s: int)
    ensures TowardsZero(TruncDiv(s, RATE), s)
  {}

  lemma OneTowardsZero(m: int, n: int, s: int)
    requires TowardsZero(m, s) && TowardsZero(n, s)
    ensures m == n
  {}

  /** The output frame at num / 48000 source frames into the input: on each side the two neighbouring samples of that
      side, weighted by distance; mono has one side, and the last source frame is its own neighbour. */
  ghost predicate Interpolated(f: Frame, src: seq<int>, frames: nat, ch: nat, num: nat) {
    && 1 <= ch <= 2 && |src| == frames * ch && num / 48000 < frames
    && var i, frac := num / 48000, num % 48000;
    var j := if i + 1 < frames then i + 1 else i;
    && i * ch + ch <= |src| && j * ch + ch <= |src|
    && (ch == 1 ==> TowardsZero(f.l, src[i] * (48000 - frac) + src[j] * frac) && f.r == f.l)
    && (ch == 2 ==>
          && TowardsZero(f.l, src[2 * i] * (48000 - frac) + src[2 * j] * frac)
          && TowardsZero(f.r, src[2 * i + 1] * (48000 - frac) + src[2 * j + 1] * frac))
  }

  /** That is what the resampler computes, and nothing else is. */
  lemma OutputIsInterpolated(f: Frame, src: seq<int>, frames: nat, ch: nat, num: nat)
    requires 1 <= ch <= 2 && |src| == frames * ch && num / RATE < frames
    ensures f == OutputAt(src, frames, ch, num) <==> Interpolated(f, src, frames, ch, num)
  {
    hide Mix, TowardsZero;
    var i, frac := num / RATE, num % RATE;
    var j := if i + 1 < frames then i + 1 else i;
    FrameFits(frames, ch, i);
    FrameFits(frames, ch, j);
    SideIsTowardsZero(f.l, SourceAt(src, ch, i, 0), SourceAt(src, ch, j, 0), frac);
    SideIsTowardsZero(f.r, SourceAt(src, ch, i, 1), SourceAt(src, ch, j, 1), frac);
  }

  lemma SideIsTowardsZero(m: int, a: int, b: int, frac: nat)
    requires frac < RATE
    ensures m == Mix(a, b, frac) <==> TowardsZero(m, a * (48000 - frac) + b * frac)
  {
    hide Mix, TowardsZero;
    MixIsTowardsZero(a, b, frac);
    if TowardsZero(m, a * (48000 - frac) + b * frac) {
      OneTowardsZero(m, Mix(a, b, frac), a * (48000 - frac) + b * frac);
    }
  }

  lemma FrameFits(frames: nat, ch: nat, k: nat)
    requires k < frames
    ensures k * ch + ch <= frames * ch
  {
    MulLe(k + 1, frames, ch);
  }

  function StereoAt(out: seq<int>, i: nat): Frame
    requires i * 2 + 1 < |out|
  {
    Frame(out[i * 2], out[i * 2 + 1])
  }

  // The frame that a doubled 32-bit index reaches.
  function Wrapped(i: nat): (p: nat)
    ensures p <= i && p < WRAP && (i < WRAP ==> p == i)
  {
    i % WRAP
  }

  /** The output frame that position j of the buffer holds after n turns of the loop. Turn i stores at i * 2 in
      32-bit arithmetic, so turn WRAP + j comes back to position j, and no turn reaches position WRAP or above. */
  function Holder(j: nat, n: nat): Option<nat> {
    if j >= WRAP || j >= n then None
    else if j + WRAP < n then Some(j + WRAP)
    else Some(j)
  }

  lemma HolderNext(j: nat, n: nat)
    requires n < 0x1_0000_0000
    ensures Holder(j, n + 1) == if j == Wrapped(n) then Some(n) else Holder(j, n)
  {}

  /** What n turns of the loop leave in the buffer. */
  ghost predicate Stored(out: seq<int>, src: seq<int>, frames: nat, ch: nat, rate: nat, n: nat)
    requires 1 <= ch <= 2 && |src| == frames * ch
  {
    forall j: nat | Holder(j, n).Some? ::
      && j * 2 + 1 < |out| && Holder(j, n).value * rate / RATE < frames
      && StereoAt(out, j) == OutputAt(src, frames, ch, Holder(j, n).value * rate)
  }

  // Every stored frame is interpolated at its place.
  ghost predicate AllInterpolated(out: seq<int>, src: seq<int>, frames: nat, ch: nat, rate: nat, n: nat) {
    forall j: nat | Holder(j, n).Some? ::
      j * 2 + 1 < |out| && Interpolated(Frame(out[j * 2], out[j * 2 + 1]), src, frames, ch, Holder(j, n).value * rate)
  }

  lemma StoredIsInterpolated(out: seq<int>, src: seq<int>, frames: nat, ch: nat, rate: nat, n: nat)
    requires 1 <= ch <= 2 && |src| == frames * ch && Stored(out, src, frames, ch, rate, n)
    ensures AllInterpolated(out, src, frames, ch, rate, n)
  {
    hide OutputAt, Interpolated, Holder;
    forall j: nat | Holder(j, n).Some?
      ensures j * 2 + 1 < |out|
      ensures Interpolated(Frame(out[j * 2], out[j * 2 + 1]), src, frames, ch, Holder(j, n).value * rate)
    {
      OutputIsInterpolated(StereoAt(out, j), src, frames, ch, Holder(j, n).value * rate);
    }
  }

  /** What load_wav is for: the first n frames of out are those of the resampled source. */
  ghost predicate Filled(out: seq<int>, src: seq<int>, frames: nat, ch: nat, rate: nat, n: nat)
    requires 1 <= ch <= 2 && |src| == frames * ch
  {
    2 * n <= |out| &&
    forall i: nat | i < n :: i * rate / RATE < frames && StereoAt(out, i) == OutputAt(src, frames, ch, i * rate)
  }

  lemma StoredNone(out: seq<int>, src: seq<int>, frames: nat, ch: nat, rate: nat)
    requires 1 <= ch <= 2 && |src| == frames * ch
    ensures Stored(out, src, frames, ch, rate, 0)
  {}

  lemma StoredNext(out: seq<int>, out': seq<int>, src: seq<int>, frames: nat, ch: nat, rate: nat, n: nat)
    requires 1 <= ch <= 2 && |src| == frames * ch
    requires Stored(out, src, frames, ch, rate, n) && n < 0x1_0000_0000
    requires |out'| == |out| && Wrapped(n) * 2 + 1 < |out|
    requires forall j | 0 <= j < |out| && j / 2 != Wrapped(n) :: out'[j] == out[j]
    requires n * rate / RATE < frames && StereoAt(out', Wrapped(n)) == OutputAt(src, frames, ch, n * rate)
    ensures Stored(out', src, frames, ch, rate, n + 1)
  {
    hide OutputAt, Holder, Wrapped;
    forall j: nat | Holder(j, n + 1).Some?
      ensures j * 2 + 1 < |out'| && Holder(j, n + 1).value * rate / RATE < frames
      ensures StereoAt(out', j) == OutputAt(src, frames, ch, Holder(j, n + 1).value * rate)
    {
      HolderNext(j, n);
      if j != Wrapped(n) {
        assert j * 2 / 2 == j && (j * 2 + 1) / 2 == j;
        assert StereoAt(out', j) == StereoAt(out, j);
      }
    }
  }

  lemma StoredFills(out: seq<int>, src: seq<int>, frames: nat, ch: nat, rate: nat, n: nat)
    requires 1 <= ch <= 2 && |src| == frames * ch
    requires Stored(out, src, frames, ch, rate, n) && n <= WRAP && 2 * n <= |out|
    ensures Filled(out, src, frames, ch, rate, n)
  {
    hide OutputAt;
    forall i: nat | i < n
      ensures i * rate / RATE < frames && StereoAt(out, i) == OutputAt(src, frames, ch, i * rate)
    {
      assert Holder(i, n) == Some(i);
    }
  }

  lemma DoubledIndex(i: nat)
    requires i < 0x1_0000_0000
    ensures ToU32(i * 2) == Wrapped(i) * 2 && ToU32(ToU32(i * 2) + 1) == Wrapped(i) * 2 + 1
  {}

  /** The resampling loop, with the machine's arithmetic. */
  method Resample(src: array<int>, frames: nat, ch: nat, rate: nat) returns (dst: array<int>)
    requires Playable(src[..], frames, ch, rate)
    ensures fresh(dst) && dst.Length == 2 * OutFrames(frames, rate)
    ensures Stored(dst[..], src[..], frames, ch, rate, OutFrames(frames, rate))
    ensures AllInterpolated(dst[..], src[..], frames, ch, rate, OutFrames(frames, rate))
  {
    hide OutputAt, Stored, AllInterpolated;
    var dstFrames := ToU32((frames * RATE + rate / 2) / rate);
    if dstFrames == 0 {
      dstFrames := 1;
    }
    dst := new int[dstFrames * 2];
    StoredNone(dst[..], src[..], frames, ch, rate);
    var i := 0;
    while i < dstFrames
      invariant i <= dstFrames == OutFrames(frames, rate) < 0x1_0000_0000
      invariant src[..] == old(src[..])
      invariant Stored(dst[..], src[..], frames, ch, rate, i)
    {
      SourceIndexInRange(frames, rate, i);
      DoubledIndex(i);
      ghost var before := dst[..];
      var l, r := MixFrame(src, frames, ch, i * rate);
      dst[ToU32(i * 2)], dst[ToU32(ToU32(i * 2) + 1)] := l, r;
      StoredNext(before, dst[..], src[..], frames, ch, rate, i);
      i := i + 1;
    }
    StoredIsInterpolated(dst[..], src[..], frames, ch, rate, dstFrames);
  }

  lemma SameI32(x: int)
    requires -0x8000_0000 <= x < 0x8000_0000
    ensures ToI32(x) == x
  {}

  // One mixed sample, as the machine computes it.
  method MixSample(a: int, b: int, frac: nat) returns (m: int)
    requires IsI16(a) && IsI16(b) && frac < RATE
    ensures m == Mix(a, b, frac)
  {
    hide ToI32;
    MixIsBetween(a, b, frac);
    SameI32(a * (RATE - frac));
    SameI32(b * frac);
    SameI32(a * (RATE - frac) + b * frac);
    m := ToI16(TruncDiv(ToI32(ToI32(a * (RATE - frac)) + ToI32(b * frac)), RATE));
  }

  // One turn of the loop; num is i * src_rate.
  method MixFrame(src: array<int>, frames: nat, ch: nat, num: nat) returns (l: int, r: int)
    requires 1 <= ch <= 2 && src.Length == frames * ch && frames < 0x8000_0000
    requires forall i | 0 <= i < src.Length :: IsI16(src[i])
    requires num / RATE < frames
    ensures Frame(l, r) == OutputAt(src[..], frames, ch, num)
  {
    hide Mix, SourceAt;
    var si, frac := ToU32(num / RATE), ToU32(num % RATE);
    var sj := ToU32(si + 1);
    if si >= frames { si := frames - 1; }
    if sj >= frames { sj := frames - 1; }
    assert si == num / RATE && sj == if si + 1 < frames then si + 1 else si;
    FrameFits(frames, ch, si);
    FrameFits(frames, ch, sj);
    var l0, r0 := ReadFrame(src, ch, si);
    var l1, r1 := ReadFrame(src, ch, sj);
    l := MixSample(l0, l1, frac);
    r := MixSample(r0, r1, frac);
  }

  method ReadFrame(src: array<int>, ch: nat, k: nat) returns (l: int, r: int)
    requires 1 <= ch <= 2 && k * ch + ch <= src.Length
    requires forall i | 0 <= i < src.Length :: IsI16(src[i])
    ensures l == SourceAt(src[..], ch, k, 0) && r == SourceAt(src[..], ch, k, 1) && IsI16(l) && IsI16(r)
  {
    if ch == 1 {
      l, r := src[k], src[k];
    } else {
      l, r := src[k * 2], src[k * 2 + 1];
    }
  }

  // On a whole source frame the interpolation changes nothing.
  lemma WholeFrame(src: seq<int>, frames: nat, ch: nat, k: nat)
    requires 1 <= ch <= 2 && |src| == frames * ch && k < frames
    ensures k * ch + ch <= |src| && k * RATE / RATE == k
    ensures OutputAt(src, frames, ch, k * RATE) == Frame(SourceAt(src, ch, k, 0), SourceAt(src, ch, k, 1))
  {
    FrameFits(frames, ch, k);
    WholeMix(SourceAt(src, ch, k, 0), if k + 1 < frames then SourceAt(src, ch, k + 1, 0) else SourceAt(src, ch, k, 0))
    by { if k + 1 < frames { FrameFits(frames, ch, k + 1); } }
    WholeMix(SourceAt(src, ch, k, 1), if k + 1 < frames then SourceAt(src, ch, k + 1, 1) else SourceAt(src, ch, k, 1))
    by { if k + 1 < frames { FrameFits(frames, ch, k + 1); } }
  }

  lemma WholeMix(a: int, b: int)
    ensures Mix(a, b, 0) == a
  {
    assert b * 0 == 0;
  }

  function SourceFrame(src: seq<int>, ch: nat, k: nat): Frame
    requires 1 <= ch <= 2 && k * ch + ch <= |src|
  {
    Frame(SourceAt(src, ch, k, 0), SourceAt(src, ch, k, 1))
  }

  lemma StepsMeet(k: nat, rate: nat)
    requires 1 <= rate && RATE % rate == 0
    ensures k * (RATE / rate) * rate == k * RATE
  {
    var m := RATE / rate;
    assert m * rate == RATE;
    assert k * m * rate == k * (m * rate);
  }

  lemma DivideBack(q: nat, rate: nat)
    requires rate > 0
    ensures (q * rate + rate / 2) / rate == q
  {
    DivideUnique(q * rate + rate / 2, rate, q, rate / 2);
  }

  lemma ExactCount(frames: nat, rate: nat)
    requires 1 <= rate && RATE % rate == 0
    ensures RoundedFrames(frames, rate) == frames * (RATE / rate)
  {
    StepsMeet(frames, rate);
    DivideBack(frames * (RATE / rate), rate);
  }

  /** When the source rate divides 48000, the stored buffer has source frame k at k * 48000 / rate, unchanged. */
  lemma ExactFrames(out: seq<int>, src: seq<int>, frames: nat, ch: nat, rate: nat, k: nat)
    requires Playable(src, frames, ch, rate) && RATE % rate == 0 && k < frames
    requires |out| == 2 * OutFrames(frames, rate) && Stored(out, src, frames, ch, rate, OutFrames(frames, rate))
    requires frames * (RATE / rate) <= WRAP
    ensures var i := k * (RATE / rate);
            i * 2 + 1 < |out| && k * ch + ch <= |src| && StereoAt(out, i) == SourceFrame(src, ch, k)
  {
    hide OutputAt;
    var m := RATE / rate;
    assert m >= 1 by { StepsMeet(1, rate); }
    ExactCount(frames, rate);
    MulLe(k + 1, frames, m);
    assert (k + 1) * m == k * m + m;
    assert Holder(k * m, frames * m) == Some(k * m);
    WholeFrame(src, frames, ch, k);
    StepsMeet(k, rate);
  }

  // ----- when the buffer holds everything -----

  // A mono source that is silent after its first frame.
  function Spike(frames: nat): (src: seq<int>)
    ensures |src| == frames
  {
    seq(frames, k => if k == 0 then 1 else 0)
  }

  // A buffer that the loop may leave for the spike.
  function SpikeBuffer(frames: nat, rate: nat, n: nat): (out: seq<int>)
    ensures |out| == 2 * n
  {
    seq(2 * n, k requires 0 <= k =>
      match Holder(k / 2, n)
      case None => 0
      case Some(h) => if h * rate / RATE < frames then OutputAt(Spike(frames), frames, 1, h * rate).l else 0)
  }

  lemma SpikeIsMono(frames: nat, num: nat)
    requires num / RATE < frames
    ensures OutputAt(Spike(frames), frames, 1, num).l == OutputAt(Spike(frames), frames, 1, num).r
  {}

  lemma SpikeStored(frames: nat, rate: nat)
    requires frames > 0 && rate > 0
    ensures var n := OutFrames(frames, rate);
            Stored(SpikeBuffer(frames, rate, n), Spike(frames), frames, 1, rate, n)
  {
    hide OutputAt, Spike, SpikeBuffer, Holder, OutFrames;
    var n := OutFrames(frames, rate);
    forall j: nat | Holder(j, n).Some?
      ensures j * 2 + 1 < 2 * n && Holder(j, n).value * rate / RATE < frames
      ensures StereoAt(SpikeBuffer(frames, rate, n), j)
           == OutputAt(Spike(frames), frames, 1, Holder(j, n).value * rate)
    {
      HolderIsATurn(j, n);
      SourceIndexInRange(frames, rate, Holder(j, n).value);
      SpikeBufferAt(frames, rate, n, j);
      SpikeIsMono(frames, Holder(j, n).value * rate);
    }
  }

  lemma HolderIsATurn(j: nat, n: nat)
    requires Holder(j, n).Some?
    ensures j <= Holder(j, n).value < n
  {}

  lemma SpikeBufferAt(frames: nat, rate: nat, n: nat, j: nat)
    requires j < n && Holder(j, n).Some? && Holder(j, n).value * rate / RATE < frames
    ensures var s := OutputAt(Spike(frames), frames, 1, Holder(j, n).value * rate).l;
            StereoAt(SpikeBuffer(frames, rate, n), j) == Frame(s, s)
  {
    hide OutputAt, Spike, Holder;
    assert j * 2 / 2 == j && (j * 2 + 1) / 2 == j;
  }

  // The turn that comes back to position 0 reads far behind the first source frame.
  lemma SpikeLost(out: seq<int>, frames: nat, rate: nat, n: nat)
    requires frames > 0 && rate > 0 && n > WRAP && Stored(out, Spike(frames), frames, 1, rate, n)
    ensures 1 < |out| && StereoAt(out, 0) == Frame(0, 0)
    ensures OutputAt(Spike(frames), frames, 1, 0) == SourceFrame(Spike(frames), 1, 0) == Frame(1, 1)
  {
    assert Holder(0, n) == Some(WRAP);
    MulLe(1, rate, WRAP);
    WholeFrame(Spike(frames), frames, 1, 0);
  }

  /** Whatever is played, the buffer holds every frame that the file makes, in order, exactly up to 2^31 of them.
      Above that the first ones are overwritten, and from 2^32 on the count itself is cut. */
  lemma BufferHoldsAll(frames: nat, rate: nat)
    requires 1 <= frames && 2 * frames <= 8 * 1024 * 1024 && 1 <= rate < 0x1_0000_0000
    ensures var n, d := OutFrames(frames, rate), FramesWanted(frames, rate);
            (forall src, ch, out | Playable(src, frames, ch, rate) && |out| == 2 * n &&
                                   Stored(out, src, frames, ch, rate, n) ::
               Filled(out, src, frames, ch, rate, d)) <==> d <= WRAP
  {
    hide OutputAt, Stored, Spike, SpikeBuffer, OutFrames, FramesWanted;
    var n, d := OutFrames(frames, rate), FramesWanted(frames, rate);
    CountIsCut(frames, rate);
    if d <= WRAP {
      forall src, ch, out | Playable(src, frames, ch, rate) && |out| == 2 * n && Stored(out, src, frames, ch, rate, n)
        ensures Filled(out, src, frames, ch, rate, d)
      {
        StoredFills(out, src, frames, ch, rate, n);
      }
    } else {
      var out := SpikeBuffer(frames, rate, n);
      SpikePlayable(frames, rate);
      SpikeStored(frames, rate);
      if d < 0x1_0000_0000 {
        SpikeLost(out, frames, rate, n);
        assert 0 * rate == 0;
      }
      assert !Filled(out, Spike(frames), frames, 1, rate, d);
    }
  }

  lemma SpikePlayable(frames: nat, rate: nat)
    requires 1 <= frames && 2 * frames <= 8 * 1024 * 1024 && 1 <= rate < 0x1_0000_0000
    ensures Playable(Spike(frames), frames, 1, rate)
  {}

  // Source frame k is where it belongs in the buffer.
  ghost predicate FrameKept(out: seq<int>, src: seq<int>, ch: nat, m: nat, k: nat) {
    1 <= ch <= 2 && k * ch + ch <= |src| && k * m * 2 + 1 < |out| && StereoAt(out, k * m) == SourceFrame(src, ch, k)
  }

  /** When the source rate divides 48000, every source frame survives, whatever is played, exactly when the
      exact number of output frames is at most 2^31. */
  lemma NoFrameLost(frames: nat, rate: nat)
    requires 1 <= frames && 2 * frames <= 8 * 1024 * 1024 && 1 <= rate && RATE % rate == 0
    ensures var n := OutFrames(frames, rate);
            (forall src, ch, out, k: nat | Playable(src, frames, ch, rate) && |out| == 2 * n &&
                                           Stored(out, src, frames, ch, rate, n) && k < frames ::
               FrameKept(out, src, ch, RATE / rate, k)) <==> frames * (RATE / rate) <= WRAP
  {
    hide OutputAt, Stored, Spike, SpikeBuffer;
    var n, m := OutFrames(frames, rate), RATE / rate;
    assert rate <= RATE && 1 <= m <= RATE by { StepsMeet(1, rate); MulLe(1, rate, m); }
    if frames * m <= WRAP {
      forall src, ch, out, k: nat | Playable(src, frames, ch, rate) && |out| == 2 * n &&
                                    Stored(out, src, frames, ch, rate, n) && k < frames
        ensures FrameKept(out, src, ch, m, k)
      {
        ExactFrames(out, src, frames, ch, rate, k);
      }
    } else {
      var out := SpikeBuffer(frames, rate, n);
      SpikePlayable(frames, rate);
      SpikeStored(frames, rate);
      ExactCount(frames, rate);
      if frames * m < 0x1_0000_0000 {
        SpikeLost(out, frames, rate, n);
        assert 0 * m == 0;
        assert !FrameKept(out, Spike(frames), 1, m, 0);
      } else {
        assert frames * m == (frames - 1) * m + m;
        assert !FrameKept(out, Spike(frames), 1, m, frames - 1);
      }
    }
  }

  /** 44740 mono frames at 1 Hz: the count fits an unsigned, but the last source frame replaces the first. */
  lemma FirstFrameOverwritten(out: seq<int>, src: seq<int>)
    requires Playable(src, 44740, 1, 1)
    requires Stored(out, src, 44740, 1, 1, OutFrames(44740, 1))
    ensures OutFrames(44740, 1) == 44740 * RATE < 0x1_0000_0000
    ensures 1 < |out| && StereoAt(out, 0) == Frame(src[44739], src[44739])
  {
    ExactCount(44740, 1);
    assert Holder(0, OutFrames(44740, 1)) == Some(WRAP);
    assert WRAP / RATE == 44739;
    MixIsBetween(src[44739], src[44739], WRAP % RATE);
  }

  // ----- the write loop -----

  /** A device that takes at most what it is offered; call k would take behave(k) frames, and
      nothing at all or an error code is a stall. */
  class Pcm {
    const behave: nat -> int
    var played: seq<Frame>
    var results: seq<int>

    constructor (behave: nat -> int)
      ensures this.behave == behave && played == [] && results == []
    {
      this.behave, played, results := behave, [], [];
    }

    method WriteI(offer: seq<Frame>) returns (w: int)
      modifies this
      ensures w <= |offer| && results == old(results) + [w]
      ensures w == if behave(|old(results)|) <= |offer| then behave(|old(results)|) else |offer|
      ensures played == old(played) + if w > 0 then offer[..w] else []
    {
      w := behave(|results|);
      if w > |offer| {
        w := |offer|;
      }
      if w > 0 {
        played := played + offer[..w];
      }
      results := results + [w];
    }
  }

  ghost predicate StallAt(ws: seq<int>, i: int) {
    0 <= i && i + 2 < |ws| && ws[i] <= 0 && ws[i + 1] <= 0 && ws[i + 2] <= 0
  }

  /** Three calls in a row that took nothing. */
  ghost predicate GaveUp(ws: seq<int>) { exists i :: StallAt(ws, i) }

  // How many calls at the end took nothing.
  function Trailing(ws: seq<int>): nat {
    if ws == [] || ws[|ws| - 1] > 0 then 0 else 1 + Trailing(ws[..|ws| - 1])
  }

  lemma OneMoreCall(ws: seq<int>, w: int)
    requires !GaveUp(ws)
    ensures Trailing(ws + [w]) == if w > 0 then 0 else Trailing(ws) + 1
    ensures GaveUp(ws + [w]) <==> w <= 0 && Trailing(ws) >= 2
  {
    var u := ws + [w];
    assert u[..|ws|] == ws;
    if i :| StallAt(u, i) {
      assert i + 2 == |ws| by { assert i + 2 < |ws| ==> StallAt(ws, i); }
      assert ws[..|ws| - 1][..|ws| - 2] == ws[..|ws| - 2];
      assert Trailing(ws) >= 2;
    }
    if w <= 0 && Trailing(ws) >= 2 {
      assert ws[|ws| - 1] <= 0 && ws[..|ws| - 1][|ws| - 2] <= 0;
      assert StallAt(u, |ws| - 2);
    }
  }

  // How many frames the calls took.
  function Taken(ws: seq<int>): nat {
    if ws == [] then 0 else Taken(ws[..|ws| - 1]) + if ws[|ws| - 1] > 0 then ws[|ws| - 1] else 0
  }

  // What one call takes when n frames went before it, from (n + off) * 2 on in 32-bit arithmetic.
  function Piece(stereo: seq<Frame>, n: nat, w: int): (d: seq<Frame>)
    requires n + (if w > 0 then w else 0) <= |stereo|
    ensures |d| == if w > 0 then w else 0
  {
    if w > 0 then stereo[Wrapped(n)..Wrapped(n) + w] else []
  }

  /** What the device got from calls with these results. */
  function Delivered(stereo: seq<Frame>, ws: seq<int>): (d: seq<Frame>)
    requires Taken(ws) <= |stereo|
    ensures |d| == Taken(ws)
  {
    if ws == [] then []
    else Delivered(stereo, ws[..|ws| - 1]) + Piece(stereo, Taken(ws[..|ws| - 1]), ws[|ws| - 1])
  }

  lemma TakenNext(ws: seq<int>, w: int)
    ensures Taken(ws + [w]) == Taken(ws) + if w > 0 then w else 0
  {
    assert (ws + [w])[..|ws|] == ws;
  }

  lemma DeliveredNext(stereo: seq<Frame>, ws: seq<int>, w: int)
    requires Taken(ws + [w]) <= |stereo|
    ensures Taken(ws + [w]) == Taken(ws) + if w > 0 then w else 0
    ensures Delivered(stereo, ws + [w]) == Delivered(stereo, ws) + Piece(stereo, Taken(ws), w)
  {
    hide Piece;
    TakenNext(ws, w);
    var u := ws + [w];
    assert u[..|u| - 1] == ws && u[|u| - 1] == w;
  }

  lemma PieceInOrder(stereo: seq<Frame>, n: nat, w: int)
    requires n + (if w > 0 then w else 0) <= |stereo| && n + (if w > 0 then w else 0) <= WRAP
    ensures stereo[..n] + Piece(stereo, n, w) == stereo[..n + if w > 0 then w else 0]
  {
    if w > 0 {
      assert Wrapped(n) == n;
    }
  }

  lemma {:induction false} DeliveredInOrder(stereo: seq<Frame>, ws: seq<int>)
    requires Taken(ws) <= |stereo| && Taken(ws) <= WRAP
    ensures Delivered(stereo, ws) == stereo[..Taken(ws)]
  {
    hide Wrapped, Piece;
    if ws != [] {
      var u, w := ws[..|ws| - 1], ws[|ws| - 1];
      DeliveredInOrder(stereo, u);
      PieceInOrder(stereo, Taken(u), w);
    }
  }

  // Calls of write_pcm that took n frames.
  ghost predicate Took(ws: seq<int>, n: nat) {
    Taken(ws) == n && forall w | w in ws :: w <= PERIOD
  }

  lemma Nothing(stereo: seq<Frame>)
    ensures Taken([]) == 0 && Delivered(stereo, []) == []
  {}

  function Ones(n: nat): (ws: seq<int>)
    ensures |ws| == n
  {
    seq(n, _ => 1)
  }

  lemma {:induction false} OnesDeliver(stereo: seq<Frame>, n: nat)
    requires n <= |stereo|
    ensures Taken(Ones(n)) == n
    ensures forall j | 0 <= j < n :: Delivered(stereo, Ones(n))[j] == stereo[Wrapped(j)]
  {
    hide Taken, Delivered, Wrapped;
    if n == 0 {
      assert Ones(0) == [];
      Nothing(stereo);
    } else {
      OnesDeliver(stereo, n - 1);
      assert Ones(n) == Ones(n - 1) + [1];
      TakenNext(Ones(n - 1), 1);
      DeliveredNext(stereo, Ones(n - 1), 1);
      assert Piece(stereo, n - 1, 1) == [stereo[Wrapped(n - 1)]];
    }
  }

  /** Whatever is played on whatever device, the frames taken are all frames once and in order, exactly when
      there are at most 2^31 of them. */
  lemma OnceAndInOrderIff(n: nat)
    ensures (forall stereo: seq<Frame>, ws | |stereo| == n && Took(ws, n) :: Delivered(stereo, ws) == stereo)
       <==> n <= WRAP
  {
    if n <= WRAP {
      forall stereo: seq<Frame>, ws | |stereo| == n && Took(ws, n) ensures Delivered(stereo, ws) == stereo {
        DeliveredInOrder(stereo, ws);
      }
    } else {
      var stereo := seq(n, j => Frame(if j == 0 then 1 else 0, 0));
      OnesDeliver(stereo, n);
      assert Took(Ones(n), n);
      assert Delivered(stereo, Ones(n))[WRAP] == stereo[0];
    }
  }

  function FramesOf(out: seq<int>, n: nat): (stereo: seq<Frame>)
    requires |out| == 2 * n
    ensures |stereo| == n
  {
    seq(n, i requires 0 <= i < n => StereoAt(out, i))
  }

  /** The device got the resampled file, whole and in order. */
  ghost predicate Played(played: seq<Frame>, src: seq<int>, frames: nat, ch: nat, rate: nat)
    requires 1 <= ch <= 2 && |src| == frames * ch && rate > 0
  {
    && |played| == FramesWanted(frames, rate)
    && forall i: nat | i < |played| :: Interpolated(played[i], src, frames, ch, i * rate)
  }

  // From what the resampler stored to what the device took.
  ghost predicate Session(src: seq<int>, frames: nat, ch: nat, rate: nat, out: seq<int>, ws: seq<int>)
    requires rate > 0
  {
    && Playable(src, frames, ch, rate) && |out| == 2 * OutFrames(frames, rate)
    && Stored(out, src, frames, ch, rate, OutFrames(frames, rate)) && Took(ws, OutFrames(frames, rate))
  }

  /** Whatever file is played on whatever device, when every frame was taken the device got the resampled file whole
      and in order exactly when that has at most 2^31 frames. */
  lemma PlaysTheFile(frames: nat, rate: nat)
    requires 1 <= frames && 2 * frames <= 8 * 1024 * 1024 && 1 <= rate < 0x1_0000_0000
    ensures (forall src, ch, out, ws | Session(src, frames, ch, rate, out, ws) ::
               Played(Delivered(FramesOf(out, OutFrames(frames, rate)), ws), src, frames, ch, rate)) <==>
            FramesWanted(frames, rate) <= WRAP
  {
    hide OutputAt, Stored, Spike, SpikeBuffer, OutFrames, FramesWanted, Delivered, Played;
    var n, d := OutFrames(frames, rate), FramesWanted(frames, rate);
    CountIsCut(frames, rate);
    if d <= WRAP {
      forall src, ch, out, ws | Session(src, frames, ch, rate, out, ws)
        ensures Played(Delivered(FramesOf(out, n), ws), src, frames, ch, rate)
      {
        StoredFills(out, src, frames, ch, rate, n);
        DeliveredInOrder(FramesOf(out, n), ws);
        FilledIsPlayed(out, src, frames, ch, rate);
        assert FramesOf(out, n)[..n] == FramesOf(out, n);
      }
    } else {
      SpikeNotPlayed(frames, rate);
      assert Session(Spike(frames), frames, 1, rate, SpikeBuffer(frames, rate, n), Ones(n));
    }
  }

  lemma FilledIsPlayed(out: seq<int>, src: seq<int>, frames: nat, ch: nat, rate: nat)
    requires 1 <= ch <= 2 && |src| == frames * ch && rate > 0
    requires var n := OutFrames(frames, rate);
             |out| == 2 * n && n == FramesWanted(frames, rate) && Filled(out, src, frames, ch, rate, n)
    ensures Played(FramesOf(out, OutFrames(frames, rate)), src, frames, ch, rate)
  {
    hide OutputAt, OutFrames, FramesWanted, Interpolated;
    var n := OutFrames(frames, rate);
    forall i: nat | i < n ensures Interpolated(FramesOf(out, n)[i], src, frames, ch, i * rate) {
      OutputIsInterpolated(StereoAt(out, i), src, frames, ch, i * rate);
    }
  }

  lemma SpikeNotPlayed(frames: nat, rate: nat)
    requires 1 <= frames && 2 * frames <= 8 * 1024 * 1024 && 1 <= rate < 0x1_0000_0000
    requires FramesWanted(frames, rate) > WRAP
    ensures var n := OutFrames(frames, rate);
            && Session(Spike(frames), frames, 1, rate, SpikeBuffer(frames, rate, n), Ones(n))
            && !Played(Delivered(FramesOf(SpikeBuffer(frames, rate, n), n), Ones(n)), Spike(frames), frames, 1, rate)
  {
    hide OutputAt, Stored, Spike, SpikeBuffer, OutFrames, FramesWanted, Delivered, Taken;
    var n := OutFrames(frames, rate);
    var out := SpikeBuffer(frames, rate, n);
    CountIsCut(frames, rate);
    SpikePlayable(frames, rate);
    SpikeStored(frames, rate);
    OnesDeliver(FramesOf(out, n), n);
    if n > WRAP {
      SpikeLost(out, frames, rate, n);
      assert 0 * rate == 0;
      assert Delivered(FramesOf(out, n), Ones(n))[0] == StereoAt(out, 0);
      OutputIsInterpolated(StereoAt(out, 0), Spike(frames), frames, 1, 0);
    }
  }

  /** The write loop with n frames taken so far, and stalls calls at the end that took nothing. */
  ghost predicate Going(stereo: seq<Frame>, played: seq<Frame>, ws: seq<int>, n: nat, stalls: nat) {
    && Taken(ws) == n <= |stereo| && played == Delivered(stereo, ws) && Took(ws, n)
    && !GaveUp(ws) && Trailing(ws) == stalls <= 2 && |ws| <= 3 * n + stalls
  }

  lemma AfterCall(stereo: seq<Frame>, played: seq<Frame>, ws: seq<int>, n: nat, stalls: nat, len: nat, w: int)
    requires Going(stereo, played, ws, n, stalls)
    requires n + len <= |stereo| && len <= PERIOD && w <= len
    ensures w > 0 ==> Going(stereo, played + stereo[Wrapped(n)..Wrapped(n) + len][..w], ws + [w], n + w, 0)
    ensures w <= 0 && stalls < 2 ==> Going(stereo, played, ws + [w], n, stalls + 1)
    ensures w <= 0 && stalls == 2 ==>
              GaveUp(ws + [w]) && Took(ws + [w], n) && n <= |stereo| && played == Delivered(stereo, ws + [w])
  {
    hide Taken, Delivered, GaveUp, Trailing, Wrapped;
    OneMoreCall(ws, w);
    TakenNext(ws, w);
    DeliveredNext(stereo, ws, w);
    if w > 0 {
      assert stereo[Wrapped(n)..Wrapped(n) + len][..w] == Piece(stereo, n, w);
    } else {
      assert played + [] == played;
    }
  }

  lemma NoCallYet(stereo: seq<Frame>)
    ensures Going(stereo, [], [], 0, 0)
  {}

  lemma InOrderUpTo(stereo: seq<Frame>, ws: seq<int>)
    requires Taken(ws) <= |stereo|
    ensures |stereo| <= WRAP ==> Delivered(stereo, ws) <= stereo
  {
    if |stereo| <= WRAP {
      DeliveredInOrder(stereo, ws);
    }
  }

  /** write_pcm takes every frame or gives up, which it does exactly when the device stalls three times in a row;
      it needs three calls a frame at most. Up to 2^31 frames, the device gets them once and in order. */
  method WritePcm(pcm: Pcm, stereo: seq<Frame>) returns (err: bool)
    requires pcm.results == [] && pcm.played == []
    requires |stereo| < 0x1_0000_0000
    modifies pcm
    ensures Taken(pcm.results) <= |stereo| && pcm.played == Delivered(stereo, pcm.results)
    ensures |stereo| <= WRAP ==> pcm.played <= stereo
    ensures err <==> Taken(pcm.results) < |stereo|
    ensures err <==> GaveUp(pcm.results)
    ensures |pcm.results| <= 3 * Taken(pcm.results) + if err then 3 else 0
    ensures Took(pcm.results, Taken(pcm.results))
  {
    hide Going, Taken, Delivered, GaveUp, Took, ToU32, Wrapped;
    NoCallYet(stereo);
    var n, frames := 0, |stereo|;
    while n < frames
      invariant n <= frames && Going(stereo, pcm.played, pcm.results, n, 0)
    {
      var chunk, off, stalls := PERIOD, 0, 0;
      if chunk > frames - n {
        chunk := frames - n;
      }
      while off < chunk
        invariant off <= chunk <= PERIOD && n + chunk <= frames && stalls <= 2
        invariant Going(stereo, pcm.played, pcm.results, n + off, stalls)
        invariant off == chunk ==> stalls == 0
        decreases chunk - off, 3 - stalls
      {
        ghost var played, ws := pcm.played, pcm.results;
        DoubledIndex(n + off);
        var p := ToU32((n + off) * 2) / 2;
        var w := pcm.WriteI(stereo[p..p + (chunk - off)]);
        AfterCall(stereo, played, ws, n + off, stalls, chunk - off, w);
        if w > 0 {
          off := off + w;
          stalls := 0;
          continue;
        }
        assert pcm.played == played;
        stalls := stalls + 1;
        if stalls >= 3 {
          Stopped(stereo, played, ws, w, n + off);
          return true;
        }
      }
      n := n + chunk;
    }
    Finished(stereo, pcm.played, pcm.results);
    err := false;
  }

  lemma Finished(stereo: seq<Frame>, played: seq<Frame>, ws: seq<int>)
    requires Going(stereo, played, ws, |stereo|, 0)
    ensures Taken(ws) == |stereo| && played == Delivered(stereo, ws) && Took(ws, |stereo|)
    ensures !GaveUp(ws) && |ws| <= 3 * |stereo|
    ensures |stereo| <= WRAP ==> played <= stereo
  {
    InOrderUpTo(stereo, ws);
  }

  lemma Stopped(stereo: seq<Frame>, played: seq<Frame>, ws: seq<int>, w: int, n: nat)
    requires Going(stereo, played, ws, n, 2) && n < |stereo|
    requires Took(ws + [w], n) && played == Delivered(stereo, ws + [w])
    ensures Taken(ws + [w]) == n && |ws + [w]| <= 3 * n + 3
    ensures |stereo| <= WRAP ==> played <= stereo
  {
    InOrderUpTo(stereo, ws + [w]);
  }
}
