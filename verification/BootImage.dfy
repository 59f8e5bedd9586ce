/** Android boot images, header versions 0 to 2: pack, parse_header and split_payload of
    os/bootimg/bootimg.py. */
module BootImage {
  import opened Arith
  import opened Bytes
  import opened Common

  datatype Error = UnicodeError | StructError | ValueError

  /** The entries of header.json that pack reads. */
  datatype Info = Info(kernelAddr: int, ramdiskAddr: int, secondAddr: int, tagsAddr: int, pageSize: int,
                       headerVersion: int, osVersion: int, name: string, cmdline: string, extra: string,
                       headerSize: int, dtbAddr: int)

  datatype Parts = Parts(kernel: seq<byte>, ramdisk: seq<byte>, second: seq<byte>, recovery: seq<byte>, dtb: seq<byte>)

  /** What parse_header returns. */
  datatype Header = Header(info: Info, kernelSize: nat, ramdiskSize: nat, secondSize: nat, recoverySize: nat,
                           recoveryOffset: nat, dtbSize: nat)

  // ----- byte buffers -----

  function Zeros(n: nat): (z: seq<byte>)
    ensures |z| == n && forall i | 0 <= i < n :: z[i] == 0
  {
    seq(n, _ => 0)
  }

  // hdr[o:o + len(b)] = b on a bytearray, which grows when the slice lies beyond its end.
  function Assign(h: seq<byte>, o: nat, b: seq<byte>): (r: seq<byte>)
    ensures o + |b| <= |h| ==> |r| == |h|
  {
    h[..Min(o, |h|)] + b + h[Min(o + |b|, |h|)..]
  }

  lemma AssignHolds(h: seq<byte>, o: nat, b: seq<byte>)
    requires o + |b| <= |h|
    ensures Holds(Assign(h, o, b), o, b)
    ensures forall p: nat, c: seq<byte> | Holds(h, p, c) && (p + |c| <= o || o + |b| <= p) ::
              Holds(Assign(h, o, b), p, c)
  {
    var r := Assign(h, o, b);
    assert forall i | 0 <= i < |b| :: r[o + i] == b[i];
    forall p: nat, c: seq<byte> | Holds(h, p, c) && (p + |c| <= o || o + |b| <= p) ensures Holds(r, p, c) {
      forall i | 0 <= i < |c| ensures r[p + i] == c[i] {
        assert h[p + i] == c[i];
      }
    }
  }

  // A string field of n bytes.
  function Padded(b: seq<byte>, n: nat): seq<byte>
    requires |b| <= n
  {
    b + Zeros(n - |b|)
  }

  lemma AssignPadded(h: seq<byte>, o: nat, b: seq<byte>, n: nat)
    requires |b| <= n && Holds(h, o, Zeros(n))
    ensures Holds(Assign(h, o, b), o, Padded(b, n))
  {
    var r, z := Assign(h, o, b), Zeros(n);
    forall i | 0 <= i < n ensures r[o + i] == Padded(b, n)[i] {
      assert h[o + i] == z[i];
    }
  }

  // ----- strings -----

  predicate Ascii(s: string) { forall i | 0 <= i < |s| :: s[i] as int < 128 }

  function Encode(s: string): (b: seq<byte>)
    requires Ascii(s)
    ensures |b| == |s| && forall i | 0 <= i < |b| :: b[i] == s[i] as int
  {
    seq(|s|, i requires 0 <= i < |s| => s[i] as int)
  }

  // decode("ascii", "replace")
  function Decode(b: seq<byte>): (s: string)
    ensures |s| == |b|
  {
    seq(|b|, i requires 0 <= i < |b| => if b[i] < 128 then b[i] as char else '\U{FFFD}')
  }

  function UpToNul(b: seq<byte>): seq<byte> {
    if b == [] || b[0] == 0 then [] else [b[0]] + UpToNul(b[1..])
  }

  function Cut(s: string, n: nat): (r: string)
    ensures r <= s && |r| == if |s| <= n then |s| else n
  {
    if |s| <= n then s else s[..n]
  }

  predicate NulFree(s: string) { forall i | 0 <= i < |s| :: s[i] as int != 0 }

  lemma {:induction false} UpToNulOfPadded(b: seq<byte>, z: nat)
    requires forall i | 0 <= i < |b| :: b[i] != 0
    ensures UpToNul(b + Zeros(z)) == b
  {
    var whole := b + Zeros(z);
    if b == [] {
      assert z > 0 ==> whole[0] == 0;
    } else {
      assert whole[1..] == b[1..] + Zeros(z);
      UpToNulOfPadded(b[1..], z);
    }
  }

  // A NUL-free string comes back from its field, cut to what fits.
  lemma FieldBack(d: seq<byte>, o: nat, s: string, n: nat)
    requires Ascii(s) && NulFree(s) && |s| <= n && Holds(d, o, Padded(Encode(s), n))
    ensures Decode(UpToNul(Slice(d, o, o + n))) == s
  {
    var b := Encode(s);
    assert Slice(d, o, o + n) == b + Zeros(n - |b|) by {
      assert forall i | 0 <= i < n :: d[o + i] == Padded(b, n)[i];
    }
    UpToNulOfPadded(b, n - |b|);
  }

  // ----- pack -----

  const MAGIC: seq<byte> := [0x41, 0x4E, 0x44, 0x52, 0x4F, 0x49, 0x44, 0x21]  // ANDROID!
  const MARKER: seq<byte> := Encode("SEANDROIDENFORCE")

  function Align(n: nat, page: nat): (r: nat)
    requires page > 0
    ensures n <= r < n + page && r % page == 0
    ensures r == 0 <==> n == 0
  {
    AlignAtLeast(n, page);
    (n + page - 1) / page * page
  }

  lemma AlignAtLeast(n: nat, page: nat)
    requires page > 0
    ensures n <= (n + page - 1) / page * page < n + page
    ensures (n + page - 1) / page * page % page == 0
    ensures n == 0 ==> (n + page - 1) / page * page == 0
  {
    var q, r := (n + page - 1) / page, (n + page - 1) % page;
    assert n + page - 1 == q * page + r;
    MultipleHasNoRest(q, page);
    if n == 0 {
      assert q == 0;
    }
  }

  function Ints(i: Info, p: Parts): seq<int> {
    [|p.kernel|, i.kernelAddr, |p.ramdisk|, i.ramdiskAddr, |p.second|, i.secondAddr, i.tagsAddr, i.pageSize,
     i.headerVersion, i.osVersion]
  }

  function RecoveryOffset(i: Info, p: Parts): nat
    requires i.pageSize > 0
  {
    if p.recovery == [] then 0
    else i.pageSize + Align(|p.kernel|, i.pageSize) + Align(|p.ramdisk|, i.pageSize) + Align(|p.second|, i.pageSize)
  }

  predicate AllFit32(ns: seq<int>) { forall i | 0 <= i < |ns| :: Fits32(ns[i]) }

  // The first 1632 bytes of the header page.
  function PackBase(i: Info, p: Parts): (r: Result<seq<byte>, Error>)
    ensures r.Ok? ==> Ascii(i.name) && Ascii(i.cmdline) && Ascii(i.extra) && AllFit32(Ints(i, p)) && i.pageSize > 0
  {
    if !Ascii(i.name) || !Ascii(i.cmdline) || !Ascii(i.extra) then Err(UnicodeError)
    else if i.pageSize < 0 then Err(ValueError)
    else
      var h1 := Assign(Zeros(i.pageSize), 0, MAGIC);
      if !AllFit32(Ints(i, p)) || |h1| < 48 then Err(StructError)
      else
        var h2 := Assign(h1, 8, U32s(Ints(i, p)));
        var h3 := Assign(h2, 48, Encode(Cut(i.name, 16)));
        var h4 := Assign(h3, 64, Encode(Cut(i.cmdline, 511)));
        Ok(Assign(h4, 608, Encode(Cut(i.extra, 1023))))
  }

  function PackV1(h: seq<byte>, i: Info, p: Parts): Result<seq<byte>, Error>
    requires i.pageSize > 0
  {
    if !Fits32(|p.recovery|) || !Fits64(RecoveryOffset(i, p)) || !Fits32(i.headerSize) || |h| < 1648
    then Err(StructError)
    else Ok(Assign(h, 1632, U32(|p.recovery|) + U64(RecoveryOffset(i, p)) + U32(i.headerSize)))
  }

  function PackV2(h: seq<byte>, i: Info, p: Parts): Result<seq<byte>, Error> {
    if !Fits32(|p.dtb|) || !Fits64(i.dtbAddr) || |h| < 1660 then Err(StructError)
    else Ok(Assign(h, 1648, U32(|p.dtb|) + U64(i.dtbAddr)))
  }

  function PackHeader(i: Info, p: Parts): (r: Result<seq<byte>, Error>)
    ensures r.Ok? ==> i.pageSize > 0
  {
    match PackBase(i, p)
    case Err(e) => Err(e)
    case Ok(h) =>
      if i.headerVersion < 1 then Ok(h)
      else
        match PackV1(h, i, p)
        case Err(e) => Err(e)
        case Ok(h) => if i.headerVersion < 2 then Ok(h) else PackV2(h, i, p)
  }

  function Pad(b: seq<byte>, page: nat): seq<byte>
    requires page > 0
  {
    b + Zeros(Align(|b|, page) - |b|)
  }

  function Payload(p: Parts, page: nat): seq<byte>
    requires page > 0
  {
    Pad(p.kernel, page) + Pad(p.ramdisk, page) + Pad(p.second, page) + Pad(p.recovery, page) + Pad(p.dtb, page)
  }

  /** The image: header page, padded parts, marker, padding to the partition size. */
  function PackSpec(i: Info, p: Parts, seandroid: bool, padTo: nat): Result<seq<byte>, Error> {
    match PackHeader(i, p)
    case Err(e) => Err(e)
    case Ok(h) =>
      var img := h + Payload(p, i.pageSize) + if seandroid then MARKER else [];
      if padTo == 0 then Ok(img)
      else if |img| > padTo then Err(ValueError)
      else Ok(img + Zeros(padTo - |img|))
  }

  // The header buffer, as pack fills it step by step.
  method FillHeader(i: Info, p: Parts) returns (r: Result<seq<byte>, Error>)
    ensures r == PackHeader(i, p)
  {
    hide U32s, U32, U64, Encode, Align, Assign, Zeros, Ascii;
    if !Ascii(i.name) || !Ascii(i.cmdline) || !Ascii(i.extra) { return Err(UnicodeError); }
    AsciiCut(i.name, 16);
    AsciiCut(i.cmdline, 511);
    AsciiCut(i.extra, 1023);
    var name, cmdline, extra := Encode(Cut(i.name, 16)), Encode(Cut(i.cmdline, 511)), Encode(Cut(i.extra, 1023));
    if i.pageSize < 0 { return Err(ValueError); }
    var hdr := Zeros(i.pageSize);
    hdr := Assign(hdr, 0, MAGIC);
    if !AllFit32(Ints(i, p)) || |hdr| < 48 { return Err(StructError); }
    hdr := Assign(hdr, 8, U32s(Ints(i, p)));
    hdr := Assign(hdr, 48, name);
    hdr := Assign(hdr, 64, cmdline);
    hdr := Assign(hdr, 608, extra);
    assert PackBase(i, p) == Ok(hdr);
    if i.headerVersion >= 1 {
      var recOff := RecoveryOffset(i, p);
      if !Fits32(|p.recovery|) || !Fits64(recOff) || !Fits32(i.headerSize) || |hdr| < 1648 { return Err(StructError); }
      hdr := Assign(hdr, 1632, U32(|p.recovery|) + U64(recOff) + U32(i.headerSize));
    }
    if i.headerVersion >= 2 {
      if !Fits32(|p.dtb|) || !Fits64(i.dtbAddr) || |hdr| < 1660 { return Err(StructError); }
      hdr := Assign(hdr, 1648, U32(|p.dtb|) + U64(i.dtbAddr));
    }
    r := Ok(hdr);
  }

  lemma AsciiCut(s: string, n: nat)
    requires Ascii(s)
    ensures Ascii(Cut(s, n))
  {}

  method Pack(i: Info, p: Parts, seandroid: bool, padTo: nat) returns (r: Result<seq<byte>, Error>)
    ensures r == PackSpec(i, p, seandroid, padTo)
  {
    hide PackHeader, Payload;
    var hdr := FillHeader(i, p);
    if hdr.Err? { return hdr; }
    var img := hdr.value + Payload(p, i.pageSize);
    if seandroid {
      img := img + MARKER;
    }
    assert seandroid || img + [] == img;
    if padTo != 0 {
      if |img| > padTo { return Err(ValueError); }
      img := img + Zeros(padTo - |img|);
    }
    r := Ok(img);
  }

  // ----- parse_header and split_payload -----

  function Str(d: seq<byte>, a: nat, b: nat): string
    requires a <= b
  {
    Decode(UpToNul(Slice(d, a, b)))
  }

  function ParseHeader(d: seq<byte>): Result<Header, Error> {
    if Slice(d, 0, 8) != MAGIC then Err(ValueError)
    else if |d| < 48 then Err(StructError)
    else
      var v := Read32(d, 40);
      if (v >= 1 && |d| < 1648) || (v >= 2 && |d| < 1660) then Err(StructError)
      else
        var i := Info(Read32(d, 12), Read32(d, 20), Read32(d, 28), Read32(d, 32), Read32(d, 36), v, Read32(d, 44),
                      Str(d, 48, 64), Str(d, 64, 576), Str(d, 608, 1632),
                      if v >= 1 then Read32(d, 1644) else 1632,
                      if v >= 2 then Read64(d, 1652) else 0);
        Ok(Header(i, Read32(d, 8), Read32(d, 16), Read32(d, 24),
                  if v >= 1 then Read32(d, 1632) else 0,
                  if v >= 1 then Read64(d, 1636) else 0,
                  if v >= 2 then Read32(d, 1648) else 0))
  }

  // The parts of an image whose page size is known, by their offsets.
  function SplitSpec(d: seq<byte>, h: Header): Parts
    requires h.info.pageSize > 0
  {
    var page := h.info.pageSize;
    var r0 := page + Align(h.kernelSize, page);
    var s0 := r0 + Align(h.ramdiskSize, page);
    var v0 := s0 + Align(h.secondSize, page);
    var hasRec := h.info.headerVersion >= 1;
    var d0 := if hasRec then v0 + Align(h.recoverySize, page) else v0;
    Parts(Slice(d, page, page + h.kernelSize), Slice(d, r0, r0 + h.ramdiskSize), Slice(d, s0, s0 + h.secondSize),
          if hasRec then Slice(d, v0, v0 + h.recoverySize) else [],
          if h.info.headerVersion >= 2 then Slice(d, d0, d0 + h.dtbSize) else [])
  }

  /** split_payload, which walks through the image. */
  method SplitPayload(d: seq<byte>, h: Header) returns (p: Parts)
    requires h.info.pageSize > 0
    ensures p == SplitSpec(d, h)
  {
    hide Align, Slice;
    var page := h.info.pageSize;
    AlignZero(page);
    SliceEmpty(d);
    var pos := page;
    var kernel := Slice(d, pos, pos + h.kernelSize);
    pos := pos + Align(h.kernelSize, page);
    var ramdisk := Slice(d, pos, pos + h.ramdiskSize);
    pos := pos + Align(h.ramdiskSize, page);
    var second: seq<byte> := [];
    if h.secondSize != 0 {
      second := Slice(d, pos, pos + h.secondSize);
      pos := pos + Align(h.secondSize, page);
    }
    var rec: seq<byte> := [];
    if h.info.headerVersion >= 1 && h.recoverySize != 0 {
      rec := Slice(d, pos, pos + h.recoverySize);
      pos := pos + Align(h.recoverySize, page);
    }
    var dtb: seq<byte> := [];
    if h.info.headerVersion >= 2 && h.dtbSize != 0 {
      dtb := Slice(d, pos, pos + h.dtbSize);
    }
    p := Parts(kernel, ramdisk, second, rec, dtb);
  }

  lemma SliceEmpty(d: seq<byte>)
    ensures forall a: nat :: Slice(d, a, a) == []
  {}

  // ----- the header comes back -----

  function HeaderNeed(version: int): nat { if version >= 2 then 1660 else if version >= 1 then 1648 else 1632 }

  /** A page that holds the header of its version. */
  predicate PageHoldsHeader(i: Info) { i.pageSize >= HeaderNeed(i.headerVersion) }

  ghost predicate BaseLayout(h: seq<byte>, i: Info, p: Parts)
    requires Ascii(i.name) && Ascii(i.cmdline) && Ascii(i.extra) && AllFit32(Ints(i, p))
  {
    && |h| == i.pageSize
    && Holds(h, 0, MAGIC)
    && Holds(h, 8, U32s(Ints(i, p)))
    && Holds(h, 48, Padded(Encode(Cut(i.name, 16)), 16))
    && Holds(h, 64, Padded(Encode(Cut(i.cmdline, 511)), 512))
    && Holds(h, 608, Padded(Encode(Cut(i.extra, 1023)), 1024))
  }

  lemma PackBaseLayout(i: Info, p: Parts)
    requires PackBase(i, p).Ok? && i.pageSize >= 1632
    ensures BaseLayout(PackBase(i, p).value, i, p)
  {
    hide Assign, U32s, Encode, Holds, Padded;
    var name, cmdline, extra := Encode(Cut(i.name, 16)), Encode(Cut(i.cmdline, 511)), Encode(Cut(i.extra, 1023));
    var h0 := Zeros(i.pageSize);
    ZerosHold(i.pageSize, 48, 16);
    ZerosHold(i.pageSize, 64, 512);
    ZerosHold(i.pageSize, 608, 1024);
    var h1 := Assign(h0, 0, MAGIC);
    AssignHolds(h0, 0, MAGIC);
    var ints := U32s(Ints(i, p));
    var h2 := Assign(h1, 8, ints);
    AssignHolds(h1, 8, ints);
    PaddedLength(name, 16);
    PaddedLength(cmdline, 512);
    var h3 := Assign(h2, 48, name);
    AssignHolds(h2, 48, name);
    AssignPadded(h2, 48, name, 16);
    var h4 := Assign(h3, 64, cmdline);
    AssignHolds(h3, 64, cmdline);
    AssignPadded(h3, 64, cmdline, 512);
    AssignHolds(h4, 608, extra);
    AssignPadded(h4, 608, extra, 1024);
  }

  lemma PaddedLength(b: seq<byte>, n: nat)
    requires |b| <= n
    ensures |Padded(b, n)| == n
  {}

  lemma ZerosHold(n: nat, o: nat, k: nat)
    requires o + k <= n
    ensures Holds(Zeros(n), o, Zeros(k))
  {}

  ghost predicate Layout(h: seq<byte>, i: Info, p: Parts)
    requires Ascii(i.name) && Ascii(i.cmdline) && Ascii(i.extra) && AllFit32(Ints(i, p)) && i.pageSize > 0
  {
    && BaseLayout(h, i, p)
    && (i.headerVersion >= 1 ==>
          && Fits32(|p.recovery|) && Fits64(RecoveryOffset(i, p)) && Fits32(i.headerSize)
          && Holds(h, 1632, U32(|p.recovery|) + U64(RecoveryOffset(i, p)) + U32(i.headerSize)))
    && (i.headerVersion >= 2 ==>
          && Fits32(|p.dtb|) && Fits64(i.dtbAddr)
          && Holds(h, 1648, U32(|p.dtb|) + U64(i.dtbAddr)))
  }

  lemma PackHeaderLayout(i: Info, p: Parts)
    requires PackHeader(i, p).Ok? && PageHoldsHeader(i)
    ensures Ascii(i.name) && Ascii(i.cmdline) && Ascii(i.extra) && AllFit32(Ints(i, p))
    ensures Layout(PackHeader(i, p).value, i, p)
  {
    hide PackBase, Assign, Holds, Encode, Align, U32, U64, U32s, Padded;
    assert PackBase(i, p).Ok?;
    PackBaseLayout(i, p);
    var h := PackBase(i, p).value;
    PaddedLength(Encode(Cut(i.name, 16)), 16);
    PaddedLength(Encode(Cut(i.cmdline, 511)), 512);
    PaddedLength(Encode(Cut(i.extra, 1023)), 1024);
    if i.headerVersion >= 1 {
      var b1 := U32(|p.recovery|) + U64(RecoveryOffset(i, p)) + U32(i.headerSize);
      AssignHolds(h, 1632, b1);
      if i.headerVersion >= 2 {
        AssignHolds(Assign(h, 1632, b1), 1648, U32(|p.dtb|) + U64(i.dtbAddr));
      }
    }
  }

  /** The header that comes back: pack's sizes, and the strings cut to their fields. */
  ghost predicate Describes(h: Header, i: Info, p: Parts)
    requires i.pageSize > 0
  {
    && h.info.kernelAddr == i.kernelAddr && h.info.ramdiskAddr == i.ramdiskAddr && h.info.secondAddr == i.secondAddr
    && h.info.tagsAddr == i.tagsAddr && h.info.pageSize == i.pageSize && h.info.headerVersion == i.headerVersion
    && h.info.osVersion == i.osVersion
    && (NulFree(i.name) ==> h.info.name == Cut(i.name, 16))
    && (NulFree(i.cmdline) ==> h.info.cmdline == Cut(i.cmdline, 511))
    && (NulFree(i.extra) ==> h.info.extra == Cut(i.extra, 1023))
    && h.kernelSize == |p.kernel| && h.ramdiskSize == |p.ramdisk| && h.secondSize == |p.second|
    && (i.headerVersion >= 1 ==>
          && h.recoverySize == |p.recovery| && h.recoveryOffset == RecoveryOffset(i, p)
          && h.info.headerSize == i.headerSize)
    && (i.headerVersion >= 2 ==> h.dtbSize == |p.dtb| && h.info.dtbAddr == i.dtbAddr)
  }

  lemma ParseMagic(d: seq<byte>)
    requires Holds(d, 0, MAGIC)
    ensures Slice(d, 0, 8) == MAGIC
  {
    assert forall k | 0 <= k < 8 :: d[0 + k] == MAGIC[k];
  }

  lemma ParseStr(d: seq<byte>, o: nat, s: string, n: nat, m: nat)
    requires Ascii(s) && n <= m && Holds(d, o, Padded(Encode(Cut(s, n)), m))
    ensures NulFree(s) ==> Str(d, o, o + m) == Cut(s, n)
  {
    hide Padded, Encode, Slice, Holds, UpToNul;
    if NulFree(s) {
      FieldBack(d, o, Cut(s, n), m);
    }
  }

  lemma ParseBase(d: seq<byte>, i: Info, p: Parts)
    requires Ascii(i.name) && Ascii(i.cmdline) && Ascii(i.extra) && AllFit32(Ints(i, p)) && i.pageSize >= 1632
    requires |d| >= i.pageSize && BaseLayout(d[..i.pageSize], i, p)
    ensures Slice(d, 0, 8) == MAGIC
    ensures forall k | 0 <= k < 10 :: Read32(d, 8 + 4 * k) == Ints(i, p)[k]
    ensures NulFree(i.name) ==> Str(d, 48, 64) == Cut(i.name, 16)
    ensures NulFree(i.cmdline) ==> Str(d, 64, 576) == Cut(i.cmdline, 511)
    ensures NulFree(i.extra) ==> Str(d, 608, 1632) == Cut(i.extra, 1023)
  {
    hide U32s, Encode, Padded, Read32, Slice, Holds, Str, NulFree, Cut, Ascii;
    var h, rest := d[..i.pageSize], d[i.pageSize..];
    assert d == h + rest;
    AsciiCut(i.name, 16);
    AsciiCut(i.cmdline, 511);
    AsciiCut(i.extra, 1023);
    CutFits(i.name, 16);
    CutFits(i.cmdline, 511);
    CutFits(i.extra, 1023);
    HoldsPrefix(h, rest, 0, MAGIC);
    ParseMagic(d);
    HoldsPrefix(h, rest, 8, U32s(Ints(i, p)));
    Read32sBack(d, 8, Ints(i, p));
    HoldsPrefix(h, rest, 48, Padded(Encode(Cut(i.name, 16)), 16));
    ParseStr(d, 48, i.name, 16, 16);
    HoldsPrefix(h, rest, 64, Padded(Encode(Cut(i.cmdline, 511)), 512));
    ParseStr(d, 64, i.cmdline, 511, 512);
    HoldsPrefix(h, rest, 608, Padded(Encode(Cut(i.extra, 1023)), 1024));
    ParseStr(d, 608, i.extra, 1023, 1024);
  }

  lemma CutFits(s: string, n: nat)
    ensures |Cut(s, n)| <= n
  {}

  lemma ParseV1(d: seq<byte>, size: nat, offset: nat, headerSize: nat)
    requires Fits32(size) && Fits64(offset) && Fits32(headerSize)
    requires Holds(d, 1632, U32(size) + U64(offset) + U32(headerSize))
    ensures |d| >= 1648 && Read32(d, 1632) == size && Read64(d, 1636) == offset && Read32(d, 1644) == headerSize
  {
    hide U32, U64;
    HoldsParts(d, 1632, U32(size) + U64(offset), U32(headerSize));
    HoldsParts(d, 1632, U32(size), U64(offset));
    Read32Back(d, 1632, size);
    Read64Back(d, 1636, offset);
    Read32Back(d, 1644, headerSize);
  }

  lemma ParseV2(d: seq<byte>, size: nat, addr: nat)
    requires Fits32(size) && Fits64(addr)
    requires Holds(d, 1648, U32(size) + U64(addr))
    ensures |d| >= 1660 && Read32(d, 1648) == size && Read64(d, 1652) == addr
  {
    hide U32, U64;
    HoldsParts(d, 1648, U32(size), U64(addr));
    Read32Back(d, 1648, size);
    Read64Back(d, 1652, addr);
  }

  lemma HeaderComesBack(i: Info, p: Parts, rest: seq<byte>)
    requires PackHeader(i, p).Ok? && PageHoldsHeader(i)
    ensures ParseHeader(PackHeader(i, p).value + rest).Ok?
    ensures Describes(ParseHeader(PackHeader(i, p).value + rest).value, i, p)
    ensures |PackHeader(i, p).value| == i.pageSize
  {
    hide PackHeader, BaseLayout, U32, U64, Holds, Str, Read32, Read64, RecoveryOffset, AllFit32;
    PackHeaderLayout(i, p);
    var h := PackHeader(i, p).value;
    assert |h| == i.pageSize by { LayoutLength(h, i, p); }
    var d := h + rest;
    assert d[..i.pageSize] == h;
    ParseBase(d, i, p);
    var ns := Ints(i, p);
    assert Read32(d, 8 + 4 * 0) == ns[0] && Read32(d, 8 + 4 * 1) == ns[1] && Read32(d, 8 + 4 * 2) == ns[2];
    assert Read32(d, 8 + 4 * 3) == ns[3] && Read32(d, 8 + 4 * 4) == ns[4] && Read32(d, 8 + 4 * 5) == ns[5];
    assert Read32(d, 8 + 4 * 6) == ns[6] && Read32(d, 8 + 4 * 7) == ns[7] && Read32(d, 8 + 4 * 8) == ns[8];
    assert Read32(d, 8 + 4 * 9) == ns[9];
    if i.headerVersion >= 1 {
      HoldsPrefix(h, rest, 1632, U32(|p.recovery|) + U64(RecoveryOffset(i, p)) + U32(i.headerSize));
      ParseV1(d, |p.recovery|, RecoveryOffset(i, p), i.headerSize);
    }
    if i.headerVersion >= 2 {
      HoldsPrefix(h, rest, 1648, U32(|p.dtb|) + U64(i.dtbAddr));
      ParseV2(d, |p.dtb|, i.dtbAddr);
    }
  }

  lemma LayoutLength(h: seq<byte>, i: Info, p: Parts)
    requires Ascii(i.name) && Ascii(i.cmdline) && Ascii(i.extra) && AllFit32(Ints(i, p)) && i.pageSize > 0
    requires Layout(h, i, p)
    ensures |h| == i.pageSize
  {}

  // ----- the parts come back -----

  /** The parts that a header of this version can describe. */
  predicate Carries(version: int, p: Parts) {
    (version >= 1 || p.recovery == []) && (version >= 2 || p.dtb == [])
  }

  // What of the parts can be read back.
  function ReadBack(version: int, p: Parts): Parts {
    p.(recovery := if version >= 1 then p.recovery else [], dtb := if version >= 2 then p.dtb else [])
  }

  // A part that follows u in an image.
  lemma PartAt(u: seq<byte>, b: seq<byte>, page: nat, rest: seq<byte>)
    requires page > 0
    ensures Slice(u + Pad(b, page) + rest, |u|, |u| + |b|) == b
    ensures |u + Pad(b, page)| == |u| + Align(|b|, page)
  {
    hide Align;
    assert u + Pad(b, page) + rest == u + (b + (Zeros(Align(|b|, page) - |b|) + rest));
  }

  // Where the parts lie behind a header page.
  lemma PartsLie(h: seq<byte>, p: Parts, page: nat, tail: seq<byte>)
    requires page > 0 && |h| == page
    ensures var img := h + Payload(p, page) + tail;
            var r0 := page + Align(|p.kernel|, page);
            var s0 := r0 + Align(|p.ramdisk|, page);
            var v0 := s0 + Align(|p.second|, page);
            var d0 := v0 + Align(|p.recovery|, page);
            && Slice(img, page, page + |p.kernel|) == p.kernel && Slice(img, r0, r0 + |p.ramdisk|) == p.ramdisk
            && Slice(img, s0, s0 + |p.second|) == p.second && Slice(img, v0, v0 + |p.recovery|) == p.recovery
            && Slice(img, d0, d0 + |p.dtb|) == p.dtb
  {
    hide Align, Pad, Slice;
    var k, r, s := Pad(p.kernel, page), Pad(p.ramdisk, page), Pad(p.second, page);
    var v, t := Pad(p.recovery, page), Pad(p.dtb, page);
    var img := h + Payload(p, page) + tail;
    assert img == h + k + (r + s + v + t + tail);
    assert img == h + k + r + (s + v + t + tail);
    assert img == h + k + r + s + (v + t + tail);
    assert img == h + k + r + s + v + (t + tail);
    assert img == h + k + r + s + v + t + tail;
    PartAt(h, p.kernel, page, r + s + v + t + tail);
    PartAt(h + k, p.ramdisk, page, s + v + t + tail);
    PartAt(h + k + r, p.second, page, v + t + tail);
    PartAt(h + k + r + s, p.recovery, page, t + tail);
    PartAt(h + k + r + s + v, p.dtb, page, tail);
  }

  lemma PartsComeBack(h: seq<byte>, p: Parts, page: nat, tail: seq<byte>, hd: Header)
    requires page > 0 && |h| == page && hd.info.pageSize == page
    requires hd.kernelSize == |p.kernel| && hd.ramdiskSize == |p.ramdisk| && hd.secondSize == |p.second|
    requires hd.info.headerVersion >= 1 ==> hd.recoverySize == |p.recovery|
    requires hd.info.headerVersion >= 2 ==> hd.dtbSize == |p.dtb|
    ensures SplitSpec(h + Payload(p, page) + tail, hd) == ReadBack(hd.info.headerVersion, p)
    ensures var v0 := page + Align(|p.kernel|, page) + Align(|p.ramdisk|, page) + Align(|p.second|, page);
            Slice(h + Payload(p, page) + tail, v0, v0 + |p.recovery|) == p.recovery
  {
    hide Align, Payload, Slice;
    PartsLie(h, p, page, tail);
  }

  /** Parsing and splitting what pack built gives the packed parts back exactly when the header
      version can carry them; marker and padding do not matter, and a non-empty recovery part
      starts at the offset that the header records. */
  lemma RoundTrip(i: Info, p: Parts, seandroid: bool, padTo: nat)
    requires PackSpec(i, p, seandroid, padTo).Ok? && PageHoldsHeader(i)
    ensures var img := PackSpec(i, p, seandroid, padTo).value;
            && ParseHeader(img).Ok?
            && var h := ParseHeader(img).value;
            && Describes(h, i, p)
            && (SplitSpec(img, h) == p <==> Carries(i.headerVersion, p))
            && (i.headerVersion >= 1 && p.recovery != [] ==>
                  Slice(img, h.recoveryOffset, h.recoveryOffset + |p.recovery|) == p.recovery)
  {
    hide PackSpec, PackHeader, Payload, SplitSpec, ParseHeader, Align, Slice;
    var img := PackSpec(i, p, seandroid, padTo).value;
    var tail := TailOf(i, p, seandroid, padTo);
    var h, body := PackHeader(i, p).value, Payload(p, i.pageSize);
    HeaderComesBack(i, p, body + tail);
    assert img == h + (body + tail);
    PartsComeBack(h, p, i.pageSize, tail, ParseHeader(img).value);
  }

  // Marker and padding only follow the padded parts.
  lemma TailOf(i: Info, p: Parts, seandroid: bool, padTo: nat) returns (tail: seq<byte>)
    requires PackSpec(i, p, seandroid, padTo).Ok?
    ensures PackHeader(i, p).Ok?
    ensures PackSpec(i, p, seandroid, padTo).value == PackHeader(i, p).value + Payload(p, i.pageSize) + tail
  {
    hide PackHeader, Payload;
    var core := PackHeader(i, p).value + Payload(p, i.pageSize);
    var marker: seq<byte> := if seandroid then MARKER else [];
    tail := if padTo == 0 then marker else marker + Zeros(padTo - |core + marker|);
  }

  // ----- the image byte by byte -----

  /** Where the padded parts end. */
  function PartsEnd(i: Info, p: Parts): nat
    requires i.pageSize > 0
  {
    i.pageSize + Align(|p.kernel|, i.pageSize) + Align(|p.ramdisk|, i.pageSize) + Align(|p.second|, i.pageSize)
    + Align(|p.recovery|, i.pageSize) + Align(|p.dtb|, i.pageSize)
  }

  /** A part is padded with zeros to whole pages. */
  lemma PadIs(b: seq<byte>, page: nat)
    requires page > 0
    ensures |Pad(b, page)| == Align(|b|, page) && Pad(b, page)[..|b|] == b
    ensures forall q | |b| <= q < |Pad(b, page)| :: Pad(b, page)[q] == 0
  {}

  lemma PayloadLength(p: Parts, page: nat)
    requires page > 0
    ensures |Payload(p, page)| == Align(|p.kernel|, page) + Align(|p.ramdisk|, page) + Align(|p.second|, page)
                                  + Align(|p.recovery|, page) + Align(|p.dtb|, page)
  {
    hide Pad;
    PadIs(p.kernel, page);
    PadIs(p.ramdisk, page);
    PadIs(p.second, page);
    PadIs(p.recovery, page);
    PadIs(p.dtb, page);
  }

  // The sixteen characters of t stand at offset o.
  ghost predicate SpelledAt(d: seq<byte>, o: nat, t: string) {
    o + |t| <= |d| && forall q | 0 <= q < |t| :: d[o + q] == t[q] as int
  }

  lemma MarkerSpelled(a: seq<byte>, rest: seq<byte>)
    ensures SpelledAt(a + MARKER + rest, |a|, "SEANDROIDENFORCE") && |MARKER| == 16
  {
    var d := a + MARKER + rest;
    forall q | 0 <= q < 16 ensures d[|a| + q] == "SEANDROIDENFORCE"[q] as int {
      assert d[|a| + q] == MARKER[q];
    }
  }

  lemma MagicSpelled(d: seq<byte>)
    requires Holds(d, 0, MAGIC)
    ensures SpelledAt(d, 0, "ANDROID!")
  {
    var t := "ANDROID!";
    assert t[0] == 'A' && t[1] == 'N' && t[2] == 'D' && t[3] == 'R' && t[4] == 'O' && t[5] == 'I' && t[6] == 'D';
    assert MAGIC == [t[0] as int, t[1] as int, t[2] as int, t[3] as int,
                     t[4] as int, t[5] as int, t[6] as int, t[7] as int];
    forall q | 0 <= q < 8 ensures d[0 + q] == t[q] as int {
      assert d[0 + q] == MAGIC[q];
    }
  }

  /** What pack puts behind the padded parts: the marker right there when it is asked for, then zeros up to the size of
      the partition when one is given, and nothing else. */
  lemma PackedTail(i: Info, p: Parts, seandroid: bool, padTo: nat)
    requires PackSpec(i, p, seandroid, padTo).Ok? && PageHoldsHeader(i)
    ensures var img := PackSpec(i, p, seandroid, padTo).value;
            var end := PartsEnd(i, p) + if seandroid then 16 else 0;
            && SpelledAt(img, 0, "ANDROID!")
            && (seandroid ==> SpelledAt(img, PartsEnd(i, p), "SEANDROIDENFORCE"))
            && |img| == (if padTo == 0 then end else padTo)
            && end <= |img| && forall q | end <= q < |img| :: img[q] == 0
  {
    hide PackHeader, Payload, Align, Layout, MARKER;
    var h, body := PackHeader(i, p).value, Payload(p, i.pageSize);
    PackHeaderLayout(i, p);
    HeaderComesBack(i, p, []);
    PayloadLength(p, i.pageSize);
    var core := h + body;
    var img := PackSpec(i, p, seandroid, padTo).value;
    assert Holds(h, 0, MAGIC) by { LayoutHasMagic(h, i, p); }
    assert |core| == PartsEnd(i, p);
    var zeros := Zeros(if padTo == 0 then 0 else padTo - |core| - if seandroid then |MARKER| else 0);
    MarkerSpelled(core, zeros);
    if seandroid {
      assert img == core + MARKER + zeros;
      assert img == h + (body + MARKER + zeros);
      HoldsPrefix(h, body + MARKER + zeros, 0, MAGIC);
    } else {
      assert img == core + zeros;
      assert img == h + (body + zeros);
      HoldsPrefix(h, body + zeros, 0, MAGIC);
    }
    MagicSpelled(img);
  }

  lemma LayoutHasMagic(h: seq<byte>, i: Info, p: Parts)
    requires Ascii(i.name) && Ascii(i.cmdline) && Ascii(i.extra) && AllFit32(Ints(i, p)) && i.pageSize > 0
    requires Layout(h, i, p)
    ensures Holds(h, 0, MAGIC)
  {}

  /** Which number stands where in a packed header page. */
  lemma HeaderNumbers(i: Info, p: Parts)
    requires PackHeader(i, p).Ok? && PageHoldsHeader(i)
    ensures var h := PackHeader(i, p).value;
            && |h| == i.pageSize && |h| >= 1632
            && Read32(h, 8) == |p.kernel| && Read32(h, 12) == i.kernelAddr && Read32(h, 16) == |p.ramdisk|
            && Read32(h, 20) == i.ramdiskAddr && Read32(h, 24) == |p.second| && Read32(h, 28) == i.secondAddr
            && Read32(h, 32) == i.tagsAddr && Read32(h, 36) == i.pageSize && Read32(h, 40) == i.headerVersion
            && Read32(h, 44) == i.osVersion
            && (i.headerVersion >= 1 ==>
                  && |h| >= 1648 && Read32(h, 1632) == |p.recovery| && Read64(h, 1636) == RecoveryOffset(i, p)
                  && Read32(h, 1644) == i.headerSize)
            && (i.headerVersion >= 2 ==> |h| >= 1660 && Read32(h, 1648) == |p.dtb| && Read64(h, 1652) == i.dtbAddr)
  {
    hide PackHeader, BaseLayout, U32, U64, Holds, Str, Read32, Read64, RecoveryOffset, AllFit32, Slice;
    PackHeaderLayout(i, p);
    var h := PackHeader(i, p).value;
    assert |h| == i.pageSize by { LayoutLength(h, i, p); }
    assert h[..i.pageSize] == h;
    ParseBase(h, i, p);
    var ns := Ints(i, p);
    assert Read32(h, 8 + 4 * 0) == ns[0] && Read32(h, 8 + 4 * 1) == ns[1] && Read32(h, 8 + 4 * 2) == ns[2];
    assert Read32(h, 8 + 4 * 3) == ns[3] && Read32(h, 8 + 4 * 4) == ns[4] && Read32(h, 8 + 4 * 5) == ns[5];
    assert Read32(h, 8 + 4 * 6) == ns[6] && Read32(h, 8 + 4 * 7) == ns[7] && Read32(h, 8 + 4 * 8) == ns[8];
    assert Read32(h, 8 + 4 * 9) == ns[9];
    if i.headerVersion >= 1 {
      ParseV1(h, |p.recovery|, RecoveryOffset(i, p), i.headerSize);
    }
    if i.headerVersion >= 2 {
      ParseV2(h, |p.dtb|, i.dtbAddr);
    }
  }

  /** What pack demands of the header fields: ASCII strings, and numbers that fit their fields. */
  predicate Packable(i: Info, p: Parts)
    requires i.pageSize > 0
  {
    && Ascii(i.name) && Ascii(i.cmdline) && Ascii(i.extra) && AllFit32(Ints(i, p))
    && (i.headerVersion >= 1 ==> Fits32(|p.recovery|) && Fits64(RecoveryOffset(i, p)) && Fits32(i.headerSize))
    && (i.headerVersion >= 2 ==> Fits32(|p.dtb|) && Fits64(i.dtbAddr))
  }

  /** With a page that holds the header, pack fails exactly on other fields, or on an image that is
      longer than the partition. */
  lemma PackOkIff(i: Info, p: Parts, seandroid: bool, padTo: nat)
    requires PageHoldsHeader(i)
    ensures PackSpec(i, p, seandroid, padTo).Ok? <==>
            Packable(i, p) &&
            (padTo == 0 || i.pageSize + |Payload(p, i.pageSize)| + (if seandroid then |MARKER| else 0) <= padTo)
  {
    hide Payload;
    HeaderOkIff(i, p);
    if PackHeader(i, p).Ok? {
      HeaderComesBack(i, p, []);
    }
  }

  lemma HeaderOkIff(i: Info, p: Parts)
    requires PageHoldsHeader(i)
    ensures PackHeader(i, p).Ok? <==> Packable(i, p)
  {
    hide Assign, Ascii, AllFit32, RecoveryOffset, U32, U64, Align;
    BaseOkIff(i, p);
    if PackBase(i, p).Ok? {
      PackBaseLayout(i, p);
      var h := PackBase(i, p).value;
      AssignLength(h, 1632, U32(|p.recovery|) + U64(RecoveryOffset(i, p)) + U32(i.headerSize));
    }
  }

  lemma BaseOkIff(i: Info, p: Parts)
    requires i.pageSize >= 1632
    ensures PackBase(i, p).Ok? <==> Ascii(i.name) && Ascii(i.cmdline) && Ascii(i.extra) && AllFit32(Ints(i, p))
  {
    AssignLength(Zeros(i.pageSize), 0, MAGIC);
  }

  lemma AssignLength(h: seq<byte>, o: nat, b: seq<byte>)
    ensures o + |b| <= |h| ==> |Assign(h, o, b)| == |h|
  {}

  // ----- packing again -----

  /** Images from the same header fields and strings that are cut alike are the same. */
  lemma PackSees(i: Info, j: Info, p: Parts)
    requires PackHeader(i, p).Ok? && i.pageSize > 0
    requires i == j.(name := i.name, cmdline := i.cmdline, extra := i.extra, headerSize := i.headerSize,
                  dtbAddr := i.dtbAddr)
    requires j.name == Cut(i.name, 16) && j.cmdline == Cut(i.cmdline, 511) && j.extra == Cut(i.extra, 1023)
    requires i.headerVersion >= 1 ==> j.headerSize == i.headerSize
    requires i.headerVersion >= 2 ==> j.dtbAddr == i.dtbAddr
    ensures PackHeader(j, p) == PackHeader(i, p)
  {
    hide Assign, U32s, Encode, Align;
    assert Ints(i, p) == Ints(j, p);
    assert Cut(j.name, 16) == j.name && Cut(j.cmdline, 511) == j.cmdline && Cut(j.extra, 1023) == j.extra;
  }

  lemma PadLength(b: seq<byte>, page: nat)
    requires page > 0
    ensures |Pad(b, page)| == Align(|b|, page)
  {}

  lemma DroppedPartShortens(p: Parts, q: Parts, page: nat)
    requires page > 0 && q.kernel == p.kernel && q.ramdisk == p.ramdisk
    requires q.second in {[], p.second} && q.recovery in {[], p.recovery} && q.dtb in {[], p.dtb}
    ensures |Payload(q, page)| <= |Payload(p, page)|
    ensures |Payload(q, page)| == |Payload(p, page)| <==> q == p
  {
    hide Pad, Align;
    AlignZero(page);
    PadLength(p.second, page);
    PadLength(p.recovery, page);
    PadLength(p.dtb, page);
    PadLength(q.second, page);
    PadLength(q.recovery, page);
    PadLength(q.dtb, page);
  }

  lemma AlignZero(page: nat)
    requires page > 0
    ensures Align(0, page) == 0
  {}

  /** For NUL-free strings, packing what was read back from an image without tail gives the same
      image exactly when the version carries the parts, however long the strings were. */
  lemma RepackIsFixedPoint(i: Info, p: Parts)
    requires PackSpec(i, p, false, 0).Ok? && PageHoldsHeader(i)
    requires NulFree(i.name) && NulFree(i.cmdline) && NulFree(i.extra)
    ensures var img := PackSpec(i, p, false, 0).value;
            && ParseHeader(img).Ok?
            && var h := ParseHeader(img).value;
            && h.info.pageSize > 0
            && (PackSpec(h.info, SplitSpec(img, h), false, 0) == Ok(img) <==> Carries(i.headerVersion, p))
  {
    hide PackHeader, Payload, SplitSpec, ParseHeader, Align;
    RoundTrip(i, p, false, 0);
    var img := PackSpec(i, p, false, 0).value;
    var h := ParseHeader(img).value;
    var q := SplitSpec(img, h);
    PackSees(i, h.info, p);
    if !Carries(i.headerVersion, p) {
      HeaderComesBack(i, p, Payload(p, i.pageSize));
      var head := PackHeader(i, p).value;
      assert img == head + Payload(p, i.pageSize) + [];
      PartsComeBack(head, p, i.pageSize, [], h) by { assert head + Payload(p, i.pageSize) == img; }
      DroppedPartShortens(p, q, i.pageSize);
      if PackSpec(h.info, q, false, 0) == Ok(img) {
        HeaderComesBack(h.info, q, Payload(q, i.pageSize));
        assert false;
      }
    }
  }

  /** What pack reads after unpack: kernel and ramdisk as they were read back, and the dtb file. unpack writes that
      file only for a dtb that is not empty, so an earlier one, stale, may still lie in the directory. */
  function ThroughFiles(p: Parts, stale: seq<byte>): Parts {
    Parts(p.kernel, p.ramdisk, [], [], if p.dtb != [] then p.dtb else stale)
  }

  lemma BaseSees(i: Info, p: Parts, q: Parts)
    requires |q.kernel| == |p.kernel| && |q.ramdisk| == |p.ramdisk| && |q.second| == |p.second|
    ensures PackBase(i, q) == PackBase(i, p)
  {
    hide Assign, U32s, Encode, Ascii, AllFit32, Cut;
    assert Ints(i, p) == Ints(i, q);
  }

  // The header page shows of the parts what its version carries.
  lemma HeaderSees(i: Info, p: Parts, q: Parts)
    requires |q.kernel| == |p.kernel| && |q.ramdisk| == |p.ramdisk| && |q.second| == |p.second|
    requires i.headerVersion >= 1 ==> q.recovery == p.recovery
    requires i.headerVersion >= 2 ==> q.dtb == p.dtb
    ensures PackHeader(i, q) == PackHeader(i, p)
  {
    hide Assign, PackBase, U32, U64, Align;
    assert PackBase(i, q) == PackBase(i, p) by { BaseSees(i, p, q); }
  }

  lemma PlainImage(i: Info, p: Parts)
    ensures PackSpec(i, p, false, 0).Ok? <==> PackHeader(i, p).Ok?
    ensures PackHeader(i, p).Ok? ==> PackSpec(i, p, false, 0) == Ok(PackHeader(i, p).value + Payload(p, i.pageSize))
  {
    hide PackHeader, Payload;
    if PackHeader(i, p).Ok? {
      var core := PackHeader(i, p).value + Payload(p, i.pageSize);
      assert core + [] == core;
    }
  }

  lemma PadNothing(page: nat)
    requires page > 0
    ensures Pad([], page) == []
  {}

  lemma SameTail(a: seq<byte>, u: seq<byte>, b: seq<byte>, v: seq<byte>)
    requires a + u == b + v && |a| == |b|
    ensures u == v
  {
    assert (a + u)[|a|..] == u && (b + v)[|b|..] == v;
  }

  // The last two parts behind the others.
  lemma PayloadSplit(p: Parts, page: nat)
    requires page > 0
    ensures Payload(p, page)
         == Pad(p.kernel, page) + Pad(p.ramdisk, page) + Pad(p.second, page)
            + (Pad(p.recovery, page) + Pad(p.dtb, page))
  {
    hide Pad;
  }

  lemma SamePayload(p: Parts, q: Parts, page: nat)
    requires page > 0 && Payload(p, page) == Payload(q, page)
    requires q.kernel == p.kernel && q.ramdisk == p.ramdisk && q.second == p.second && q.recovery == []
    ensures Pad(p.recovery, page) + Pad(p.dtb, page) == Pad(q.dtb, page)
  {
    hide Pad, Payload;
    PayloadSplit(p, page);
    PayloadSplit(q, page);
    PadNothing(page);
    var front := Pad(p.kernel, page) + Pad(p.ramdisk, page) + Pad(p.second, page);
    SameTail(front, Pad(p.recovery, page) + Pad(p.dtb, page), front, Pad(q.recovery, page) + Pad(q.dtb, page));
    assert [] + Pad(q.dtb, page) == Pad(q.dtb, page);
  }

  // The parts that the files hold make the same image as p.
  predicate FilesSuffice(version: int, p: Parts, file: seq<byte>, page: nat)
    requires page > 0
  {
    && p.second == []
    && (version >= 1 ==> p.recovery == [])
    && (version >= 2 ==> file == p.dtb)
    && Pad(p.recovery, page) + Pad(p.dtb, page) == Pad(file, page)
  }

  lemma SameImageOnlyIf(i: Info, j: Info, p: Parts, q: Parts)
    requires PageHoldsHeader(i) && PageHoldsHeader(j)
    requires j.pageSize == i.pageSize && j.headerVersion == i.headerVersion
    requires PackHeader(i, p).Ok? && PackHeader(j, q).Ok?
    requires PackHeader(i, p).value + Payload(p, i.pageSize) == PackHeader(j, q).value + Payload(q, i.pageSize)
    requires q == Parts(p.kernel, p.ramdisk, [], [], q.dtb)
    requires i.headerVersion >= 2 ==> q.dtb == p.dtb || p.dtb == []
    ensures FilesSuffice(i.headerVersion, p, q.dtb, i.pageSize)
  {
    hide PackHeader, Payload, ParseHeader, Pad, RecoveryOffset;
    HeaderComesBack(i, p, Payload(p, i.pageSize));
    HeaderComesBack(j, q, Payload(q, i.pageSize));
    SameTail(PackHeader(i, p).value, Payload(p, i.pageSize), PackHeader(j, q).value, Payload(q, i.pageSize));
    SamePayload(p, q, i.pageSize);
  }

  lemma SameImageIf(i: Info, p: Parts, q: Parts)
    requires i.pageSize > 0 && FilesSuffice(i.headerVersion, p, q.dtb, i.pageSize)
    requires q == Parts(p.kernel, p.ramdisk, [], [], q.dtb)
    ensures PackHeader(i, q) == PackHeader(i, p) && Payload(q, i.pageSize) == Payload(p, i.pageSize)
  {
    hide PackHeader, Payload, Pad;
    HeaderSees(i, p, q);
    PayloadSplit(p, i.pageSize);
    PayloadSplit(q, i.pageSize);
    PadNothing(i.pageSize);
    assert [] + Pad(q.dtb, i.pageSize) == Pad(q.dtb, i.pageSize);
  }

  /** unpack followed by pack gives an image without tail back exactly when there is no second-stage part, the
      version records no other recovery part or dtb than the files have, and the bytes behind the second-stage part
      are the padded dtb file. */
  lemma UnpackThenPack(i: Info, p: Parts, stale: seq<byte>)
    requires PackSpec(i, p, false, 0).Ok? && PageHoldsHeader(i)
    requires NulFree(i.name) && NulFree(i.cmdline) && NulFree(i.extra)
    ensures var img := PackSpec(i, p, false, 0).value;
            && ParseHeader(img).Ok?
            && var h := ParseHeader(img).value;
            && h.info.pageSize > 0
            && SplitSpec(img, h) == ReadBack(i.headerVersion, p)
            && (PackSpec(h.info, ThroughFiles(SplitSpec(img, h), stale), false, 0) == Ok(img) <==>
                FilesSuffice(i.headerVersion, p, ThroughFiles(ReadBack(i.headerVersion, p), stale).dtb, i.pageSize))
  {
    hide PackSpec, PackHeader, Payload, SplitSpec, ParseHeader, Align, FilesSuffice;
    ImageReadsBack(i, p);
    var h := ParseHeader(PackSpec(i, p, false, 0).value).value;
    var q := ThroughFiles(ReadBack(i.headerVersion, p), stale);
    PlainImage(i, p);
    PlainImage(h.info, q);
    if PackSpec(h.info, q, false, 0) == PackSpec(i, p, false, 0) {
      SameImageOnlyIf(i, h.info, p, q);
    }
    if FilesSuffice(i.headerVersion, p, q.dtb, i.pageSize) {
      SameImageIf(h.info, p, q);
    }
  }

  lemma ImageReadsBack(i: Info, p: Parts)
    requires PackSpec(i, p, false, 0).Ok? && PageHoldsHeader(i)
    requires NulFree(i.name) && NulFree(i.cmdline) && NulFree(i.extra)
    ensures var img := PackSpec(i, p, false, 0).value;
            && ParseHeader(img).Ok?
            && var h := ParseHeader(img).value;
            && h.info.pageSize == i.pageSize && h.info.headerVersion == i.headerVersion && PageHoldsHeader(h.info)
            && SplitSpec(img, h) == ReadBack(i.headerVersion, p)
            && PackHeader(h.info, p) == PackHeader(i, p)
  {
    hide PackSpec, PackHeader, Payload, SplitSpec, ParseHeader, Align, RecoveryOffset;
    PlainImage(i, p);
    var head, body := PackHeader(i, p).value, Payload(p, i.pageSize);
    HeaderComesBack(i, p, body);
    var h := ParseHeader(head + body).value;
    assert head + body + [] == head + body;
    PartsComeBack(head, p, i.pageSize, [], h);
    PackSees(i, h.info, p);
  }

  /** In a directory without a dtb file, that is when the version carries the parts and there are no others than
      kernel, ramdisk and dtb. */
  lemma UnpackThenPackAfresh(i: Info, p: Parts)
    requires PackSpec(i, p, false, 0).Ok? && PageHoldsHeader(i)
    requires NulFree(i.name) && NulFree(i.cmdline) && NulFree(i.extra)
    ensures var img := PackSpec(i, p, false, 0).value;
            && ParseHeader(img).Ok?
            && var h := ParseHeader(img).value;
            && h.info.pageSize > 0
            && (PackSpec(h.info, ThroughFiles(SplitSpec(img, h), []), false, 0) == Ok(img) <==>
                Carries(i.headerVersion, p) && p.second == [] && p.recovery == [])
  {
    hide PackHeader, PackSpec, Payload, SplitSpec, ParseHeader, Pad, Align;
    UnpackThenPack(i, p, []);
    PadNothing(i.pageSize);
    PadSize(p.recovery, i.pageSize);
    PadSize(p.dtb, i.pageSize);
  }

  lemma PadSize(b: seq<byte>, page: nat)
    requires page > 0
    ensures |Pad(b, page)| >= |b|
  {}
}
