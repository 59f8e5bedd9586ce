/** The framebuffer of os/init/init.c seen as bytes: what one put_pixel stores, and what a
    list of put_pixel calls leaves in memory. */
module Pixels {
  import opened Arith
  import opened Common

  /** xres, yres, bytes per scan line and bits per pixel, as setup_fb reads them. */
  datatype Geometry = Geometry(xres: nat, yres: nat, line: nat, bpp: nat) {
    // The distance between two neighbouring pixels, in bytes.
    function PixelBytes(): nat { (bpp + 7) / 8 }

    // put_pixel stores a 16-bit or a 32-bit word, whatever the distance is.
    function StoreBytes(): nat { if bpp <= 16 then 2 else 4 }

    ghost predicate Valid() {
      && 1 <= bpp <= 32
      && 0 < xres < 0x8000_0000
      && 24 <= yres < 0x8000_0000
      && xres * PixelBytes() <= line
    }

    // The byte at distance o from the start of scan line y.
    function At(y: nat, o: nat): nat { y * line + o }

    // The end of the store to the last pixel of the panel.
    function LastStoreEnd(): nat
      requires Valid()
    {
      At(yres - 1, (xres - 1) * PixelBytes()) + StoreBytes()
    }

    // The length that setup_fb maps for a reported memory size.
    function MappedLen(reported: nat): nat {
      if reported == 0 || reported > 32 * 1024 * 1024 then xres * yres * PixelBytes() else reported
    }

    // A store to the last pixel of a line stays inside that line.
    predicate Tight() { StoreBytes() <= PixelBytes() || xres * PixelBytes() < line }
  }

  /** One call put_pixel(x, y, pix). */
  datatype Px = Px(x: nat, y: nat, pix: nat)

  function ByteOf(pix: nat, k: nat): byte {
    if k == 0 then pix % 256
    else if k == 1 then pix / 0x100 % 256
    else if k == 2 then pix / 0x1_0000 % 256
    else pix / 0x100_0000 % 256
  }

  function Start(g: Geometry, p: Px): nat { g.At(p.y, p.x * g.PixelBytes()) }

  // Calls outside the panel store nothing.
  predicate Covers(g: Geometry, p: Px, a: nat) {
    p.x < g.xres && p.y < g.yres && Start(g, p) <= a < Start(g, p) + g.StoreBytes()
  }

  /** What the last of the calls ws that touches byte a stores there. */
  function LastWrite(g: Geometry, ws: seq<Px>, a: nat): Option<byte> {
    if ws == [] then None
    else
      var p := ws[|ws| - 1];
      if Covers(g, p, a) then Some(ByteOf(p.pix, a - Start(g, p))) else LastWrite(g, ws[..|ws| - 1], a)
  }

  /** after is the memory that the calls ws make of before. */
  ghost predicate Painted(g: Geometry, before: seq<byte>, after: seq<byte>, ws: seq<Px>) {
    && |after| == |before|
    && forall a: nat | a < |before| :: after[a] == LastWrite(g, ws, a).GetOr(before[a])
  }

  lemma {:induction false} LastWriteConcat(g: Geometry, u: seq<Px>, v: seq<Px>, a: nat)
    ensures LastWrite(g, u + v, a) == if LastWrite(g, v, a).Some? then LastWrite(g, v, a) else LastWrite(g, u, a)
  {
    if v == [] {
      assert u + v == u;
    } else {
      assert (u + v)[..|u + v| - 1] == u + v[..|v| - 1];
      LastWriteConcat(g, u, v[..|v| - 1], a);
    }
  }

  lemma LastWriteNothing(g: Geometry, a: nat)
    ensures LastWrite(g, [], a) == None
  {}

  lemma PaintedConcat(g: Geometry, m0: seq<byte>, m1: seq<byte>, m2: seq<byte>, u: seq<Px>, v: seq<Px>)
    requires Painted(g, m0, m1, u) && Painted(g, m1, m2, v)
    ensures Painted(g, m0, m2, u + v)
  {
    forall a: nat | a < |m0| ensures m2[a] == LastWrite(g, u + v, a).GetOr(m0[a]) {
      LastWriteConcat(g, u, v, a);
    }
  }

  lemma {:induction false} TouchedIsWritten(g: Geometry, ws: seq<Px>, i: nat, a: nat)
    requires i < |ws| && Covers(g, ws[i], a)
    ensures LastWrite(g, ws, a).Some?
  {
    if i < |ws| - 1 {
      TouchedIsWritten(g, ws[..|ws| - 1], i, a);
    }
  }

  ghost predicate InRows(ws: seq<Px>, lo: int, hi: int) {
    forall i | 0 <= i < |ws| :: lo <= ws[i].y < hi
  }

  // The next multiple of c comes a whole c later.
  lemma MulStep(a: nat, b: nat, c: nat)
    ensures a < b ==> a * c + c <= b * c
    ensures a + 1 < b ==> a * c + 2 * c <= b * c
  {
    if a + 1 < b {
      MulLe(a + 2, b, c);
    } else if a < b {
      MulLe(a + 1, b, c);
    }
  }

  /** No store of a panel pixel ends behind that of the last one. */
  lemma StoreEnds(g: Geometry, x: nat, y: nat)
    requires g.Valid() && x < g.xres && y < g.yres
    ensures Start(g, Px(x, y, 0)) + g.StoreBytes() <= g.LastStoreEnd()
  {
    MulLe(x, g.xres - 1, g.PixelBytes());
    MulLe(y, g.yres - 1, g.line);
  }

  lemma OneStore(g: Geometry, p: Px, a: nat)
    ensures LastWrite(g, [p], a) == if Covers(g, p, a) then Some(ByteOf(p.pix, a - Start(g, p))) else None
  {
    assert [p][..0] == [];
  }

  // The little-endian number in two bytes.
  function HalfAt(m: seq<byte>, a: nat): nat
    requires a + 2 <= |m|
  {
    var lo: nat, hi: nat := m[a], m[a + 1];
    lo + 0x100 * hi
  }

  // m has the colour at the pixel's place, as a little-endian word of 16 or 32 bits.
  ghost predicate PixelAt(g: Geometry, m: seq<byte>, x: nat, y: nat, pix: nat) {
    var a := y * g.line + x * ((g.bpp + 7) / 8);
    if g.bpp <= 16 then a + 2 <= |m| && HalfAt(m, a) == pix % 0x1_0000
    else a + 4 <= |m| && HalfAt(m, a) + 0x1_0000 * HalfAt(m, a + 2) == pix % 0x1_0000_0000
  }

  // Nothing changes outside of those bytes.
  ghost predicate RestKept(g: Geometry, before: seq<byte>, after: seq<byte>, x: nat, y: nat) {
    var a, n := y * g.line + x * ((g.bpp + 7) / 8), if g.bpp <= 16 then 2 else 4;
    |after| == |before| && forall b | 0 <= b < |before| && !(a <= b < a + n) :: after[b] == before[b]
  }

  /** On the panel, put_pixel stores the colour at the pixel's place and nothing else; off the panel, nothing. */
  lemma PixelIsStored(g: Geometry, before: seq<byte>, after: seq<byte>, x: nat, y: nat, pix: nat)
    requires g.Valid() && g.LastStoreEnd() <= |before| && Painted(g, before, after, [Px(x, y, pix)])
    ensures x >= g.xres || y >= g.yres ==> after == before
    ensures x < g.xres && y < g.yres ==> PixelAt(g, after, x, y, pix) && RestKept(g, before, after, x, y)
  {
    hide LastWrite, ByteOf;
    var p := Px(x, y, pix);
    forall a: nat | a < |before|
      ensures after[a] == if Covers(g, p, a) then ByteOf(pix, a - Start(g, p)) else before[a]
    {
      OneStore(g, p, a);
    }
    if x < g.xres && y < g.yres {
      StoreEnds(g, x, y);
      var a := Start(g, p);
      assert after[a] == ByteOf(pix, 0) && after[a + 1] == ByteOf(pix, 1);
      if g.bpp > 16 {
        assert after[a + 2] == ByteOf(pix, 2) && after[a + 3] == ByteOf(pix, 3);
      }
      BytesOfPix(pix);
    }
  }

  lemma BytesOfPix(pix: nat)
    ensures var b0: nat, b1: nat, b2: nat, b3: nat := ByteOf(pix, 0), ByteOf(pix, 1), ByteOf(pix, 2), ByteOf(pix, 3);
            b0 + 0x100 * b1 == pix % 0x1_0000 && b0 + 0x100 * b1 + 0x1_0000 * (b2 + 0x100 * b3) == pix % 0x1_0000_0000
  {
    TwoDigits(pix);
    TwoDigits(pix / 0x1_0000);
    var q := pix / 0x1_0000;
    assert q / 0x100 == pix / 0x100_0000;
    assert pix % 0x1_0000_0000 == pix % 0x1_0000 + 0x1_0000 * (q % 0x1_0000) by { TwoHalves(pix); }
  }

  lemma TwoDigits(n: nat)
    ensures n % 0x1_0000 == n % 0x100 + 0x100 * (n / 0x100 % 0x100)
  {
    var q := n / 0x100;
    assert n == 0x1_0000 * (q / 0x100) + (0x100 * (q % 0x100) + n % 0x100);
  }

  lemma TwoHalves(n: nat)
    ensures n % 0x1_0000_0000 == n % 0x1_0000 + 0x1_0000 * (n / 0x1_0000 % 0x1_0000)
  {
    var q := n / 0x1_0000;
    assert n == 0x1_0000_0000 * (q / 0x1_0000) + (0x1_0000 * (q % 0x1_0000) + n % 0x1_0000);
  }

  /** All stores lie inside a mapping of n bytes exactly when the last one does. */
  lemma StoreInMapping(g: Geometry, n: nat)
    requires g.Valid()
    ensures (forall x: nat, y: nat | x < g.xres && y < g.yres :: Start(g, Px(x, y, 0)) + g.StoreBytes() <= n)
       <==> g.LastStoreEnd() <= n
  {
    forall x: nat, y: nat | x < g.xres && y < g.yres
      ensures Start(g, Px(x, y, 0)) + g.StoreBytes() <= g.LastStoreEnd()
    {
      StoreEnds(g, x, y);
    }
    assert Start(g, Px(g.xres - 1, g.yres - 1, 0)) + g.StoreBytes() == g.LastStoreEnd();
  }

  // b bytes per pixel, w bytes per store.
  lemma EndOfPixels(xres: nat, yres: nat, line: nat, b: nat, w: nat)
    requires xres > 0 && yres > 1 && xres * b <= line && b <= w
    ensures (yres - 1) * line + (xres - 1) * b + w <= xres * yres * b <==> line == xres * b && w <= b
  {
    var row, pad := xres * b, line - xres * b;
    assert xres * yres * b == (yres - 1) * row + row by { assert xres * yres * b == yres * row; }
    assert (xres - 1) * b + b == row;
    assert (yres - 1) * line == (yres - 1) * row + (yres - 1) * pad;
    MulLe(1, yres - 1, pad);
  }

  /** So the memory that setup_fb maps holds all stores of the panel exactly when the reported size reaches to the
      last one or, where that size is 0 or above 32 MiB and the pixels alone are mapped, when lines are packed and no
      store is longer than a pixel. */
  lemma MappingHoldsStores(g: Geometry, reported: nat)
    requires g.Valid()
    ensures (forall x: nat, y: nat | x < g.xres && y < g.yres ::
               Start(g, Px(x, y, 0)) + g.StoreBytes() <= g.MappedLen(reported)) <==>
            if reported == 0 || reported > 32 * 1024 * 1024
            then g.line == g.xres * g.PixelBytes() && g.StoreBytes() <= g.PixelBytes()
            else g.LastStoreEnd() <= reported
  {
    StoreInMapping(g, g.MappedLen(reported));
    EndOfPixels(g.xres, g.yres, g.line, g.PixelBytes(), g.StoreBytes());
  }

  /** A mapping that covers the scan lines holds all stores exactly when stores keep to their line. */
  lemma ScanLinesSuffice(g: Geometry)
    requires g.Valid()
    ensures g.LastStoreEnd() <= g.yres * g.line <==> g.Tight()
  {
    assert (g.yres - 1) * g.line + g.line == g.yres * g.line;
    assert (g.xres - 1) * g.PixelBytes() + g.PixelBytes() == g.xres * g.PixelBytes();
  }

  // b bytes per pixel, w bytes per store, and a line that holds xres pixels.
  lemma StoreKeepsToLine(line: nat, b: nat, w: nat, xres: nat, px: nat, py: nat, y: nat, o: nat)
    requires px < xres && xres * b <= line && o < line && w <= b + 1
    requires w <= b || xres * b < line || o > 0
    requires py * line + px * b <= y * line + o < py * line + px * b + w
    ensures py == y
  {
    MulStep(px, xres, b);
    MulStep(py, y, line);
    MulStep(y, py, line);
  }

  /** A pixel of one line touches a byte of another line in one case only: the line is not tight,
      and the byte is the first one of the next line. */
  lemma RowConfined(g: Geometry, p: Px, y: nat, o: nat)
    requires g.Valid() && o < g.line && Covers(g, p, g.At(y, o))
    requires g.Tight() || o > 0
    ensures p.y == y
  {
    StoreKeepsToLine(g.line, g.PixelBytes(), g.StoreBytes(), g.xres, p.x, p.y, y, o);
  }

  lemma {:induction false} OtherRowsUntouched(g: Geometry, ws: seq<Px>, lo: int, hi: int, y: nat, o: nat)
    requires g.Valid() && o < g.line && (g.Tight() || o > 0)
    requires InRows(ws, lo, hi) && !(lo <= y < hi)
    ensures LastWrite(g, ws, g.At(y, o)) == None
  {
    if ws != [] {
      var p := ws[|ws| - 1];
      if Covers(g, p, g.At(y, o)) {
        RowConfined(g, p, y, o);
        assert false;
      }
      OtherRowsUntouched(g, ws[..|ws| - 1], lo, hi, y, o);
    }
  }

  // ----- fill_rect -----

  function RowWrites(x0: nat, x1: nat, y: nat, pix: nat): (ws: seq<Px>)
    decreases x1
  {
    if x1 <= x0 then [] else RowWrites(x0, x1 - 1, y, pix) + [Px(x1 - 1, y, pix)]
  }

  function RectWrites(x0: nat, x1: nat, y0: nat, y1: nat, pix: nat): (ws: seq<Px>)
    decreases y1
  {
    if y1 <= y0 then [] else RectWrites(x0, x1, y0, y1 - 1, pix) + RowWrites(x0, x1, y1 - 1, pix)
  }

  // fill_rect clips its right and lower edge to the panel.
  function FillWrites(g: Geometry, x0: nat, y0: nat, x1: nat, y1: nat, pix: nat): seq<Px> {
    RectWrites(x0, Min(x1, g.xres), y0, Min(y1, g.yres), pix)
  }

  // All of ws lies in the box and stores pix.
  ghost predicate InFill(ws: seq<Px>, x0: int, x1: int, y0: int, y1: int, pix: nat) {
    forall i | 0 <= i < |ws| :: x0 <= ws[i].x < x1 && y0 <= ws[i].y < y1 && ws[i].pix == pix
  }

  lemma {:induction false} RowShape(x0: nat, x1: nat, y: nat, pix: nat)
    ensures InFill(RowWrites(x0, x1, y, pix), x0, x1, y, y + 1, pix)
    decreases x1
  {
    if x0 < x1 {
      RowShape(x0, x1 - 1, y, pix);
    }
  }

  lemma {:induction false} RectShape(x0: nat, x1: nat, y0: nat, y1: nat, pix: nat)
    ensures InFill(RectWrites(x0, x1, y0, y1, pix), x0, x1, y0, y1, pix)
    decreases y1
  {
    if y0 < y1 {
      RectShape(x0, x1, y0, y1 - 1, pix);
      RowShape(x0, x1, y1 - 1, pix);
    }
  }

  lemma {:induction false} RowHas(x0: nat, x1: nat, y: nat, pix: nat, x: nat) returns (i: nat)
    requires x0 <= x < x1
    ensures i < |RowWrites(x0, x1, y, pix)| && RowWrites(x0, x1, y, pix)[i] == Px(x, y, pix)
    decreases x1
  {
    if x == x1 - 1 {
      i := |RowWrites(x0, x1 - 1, y, pix)|;
    } else {
      i := RowHas(x0, x1 - 1, y, pix, x);
    }
  }

  lemma {:induction false} RectHas(x0: nat, x1: nat, y0: nat, y1: nat, pix: nat, x: nat, y: nat) returns (i: nat)
    requires x0 <= x < x1 && y0 <= y < y1
    ensures i < |RectWrites(x0, x1, y0, y1, pix)| && RectWrites(x0, x1, y0, y1, pix)[i] == Px(x, y, pix)
    decreases y1
  {
    if y == y1 - 1 {
      i := RowHas(x0, x1, y, pix, x);
      i := i + |RectWrites(x0, x1, y0, y1 - 1, pix)|;
    } else {
      i := RectHas(x0, x1, y0, y1 - 1, pix, x, y);
    }
  }

  /** A full-width fill writes every visible byte of its lines. */
  lemma FillCovers(g: Geometry, y0: nat, y1: nat, pix: nat, y: nat, o: nat)
    requires g.Valid() && y0 <= y < y1 && y < g.yres && o < g.xres * g.PixelBytes()
    ensures LastWrite(g, FillWrites(g, 0, y0, g.xres, y1, pix), g.At(y, o)).Some?
  {
    var x := ColumnOf(g, y, o, pix);
    var i := RectHas(0, g.xres, y0, Min(y1, g.yres), pix, x, y);
    TouchedIsWritten(g, FillWrites(g, 0, y0, g.xres, y1, pix), i, g.At(y, o));
  }

  // The pixel that a visible byte belongs to.
  lemma ColumnOf(g: Geometry, y: nat, o: nat, pix: nat) returns (x: nat)
    requires g.Valid() && y < g.yres && o < g.xres * g.PixelBytes()
    ensures x < g.xres && Covers(g, Px(x, y, pix), g.At(y, o))
  {
    x := o / g.PixelBytes();
    MulStep(g.xres - 1, x, g.PixelBytes());
    assert x * g.PixelBytes() <= o < x * g.PixelBytes() + g.PixelBytes();
  }

  /** fill_rect calls put_pixel exactly for the pixels of the rectangle that lie on the panel. */
  lemma FillExact(g: Geometry, x0: nat, y0: nat, x1: nat, y1: nat, pix: nat, x: nat, y: nat, c: nat)
    ensures Px(x, y, c) in FillWrites(g, x0, y0, x1, y1, pix) <==>
            c == pix && x0 <= x < x1 && x < g.xres && y0 <= y < y1 && y < g.yres
  {
    var xe, ye := Min(x1, g.xres), Min(y1, g.yres);
    RectShape(x0, xe, y0, ye, pix);
    if c == pix && x0 <= x < xe && y0 <= y < ye {
      var i := RectHas(x0, xe, y0, ye, pix, x, y);
    }
  }

  // ----- draw_char and draw_str -----

  /** font8x8: 95 glyphs of eight rows. */
  ghost predicate ValidFont(font: seq<seq<nat>>) {
    |font| == 95 && forall i | 0 <= i < 95 :: |font[i]| == 8
  }

  function GlyphIndex(ch: char): (i: nat)
    ensures i < 95
  {
    if ch as int < 32 || ch as int > 126 then '?' as int - 32 else ch as int - 32
  }

  function Pow2(n: nat): (r: nat)
    ensures r > 0
  {
    if n == 0 then 1 else 2 * Pow2(n - 1)
  }

  function Bit(b: nat, k: nat): bool { b / Pow2(k) % 2 == 1 }

  /** Dot 0 of a font row is its lowest bit, and the next dots are those of the halved byte. */
  lemma DotsAreBits(b: nat, k: nat)
    ensures Bit(b, 0) <==> b % 2 == 1
    ensures Bit(b, k + 1) <==> Bit(b / 2, k)
  {
    var d := Pow2(k);
    var q, r := b / 2 / d, b / 2 % d;
    assert b / 2 == q * d + r;
    assert b == q * (2 * d) + (2 * r + b % 2);
    DivideUnique(b, 2 * d, q, 2 * r + b % 2);
  }

  /** The font starts with the blank; what it does not have shows as a question mark, which is its glyph 31. */
  lemma GlyphOf(ch: char)
    ensures ' ' <= ch <= '~' ==> ' ' as int + GlyphIndex(ch) == ch as int
    ensures ch < ' ' || ch > '~' ==> GlyphIndex(ch) == GlyphIndex('?') == 31
  {}

  // Each font bit becomes a block of two by two pixels.
  function CellWrites(x: nat, y: nat, pix: nat): seq<Px> {
    [Px(x, y, pix), Px(x + 1, y, pix), Px(x, y + 1, pix), Px(x + 1, y + 1, pix)]
  }

  function GlyphRowWrites(x: nat, y: nat, row: nat, n: nat, fg: nat, bg: nat): seq<Px> {
    if n == 0 then []
    else
      GlyphRowWrites(x, y, row, n - 1, fg, bg) +
      CellWrites(x + (n - 1) * 2, y, if Bit(row, n - 1) then fg else bg)
  }

  function GlyphWrites(x: nat, y: nat, glyph: seq<nat>, n: nat, fg: nat, bg: nat): seq<Px>
    requires n <= |glyph|
  {
    if n == 0 then []
    else
      GlyphWrites(x, y, glyph, n - 1, fg, bg) + GlyphRowWrites(x, y + (n - 1) * 2, glyph[n - 1], 8, fg, bg)
  }

  function CharWrites(font: seq<seq<nat>>, x: nat, y: nat, ch: char, fg: nat, bg: nat): seq<Px>
    requires ValidFont(font)
  {
    GlyphWrites(x, y, font[GlyphIndex(ch)], 8, fg, bg)
  }

  // draw_str stops before a character that would reach the last column.
  function StrWrites(g: Geometry, font: seq<seq<nat>>, x: nat, y: nat, s: string, fg: nat, bg: nat): seq<Px>
    requires ValidFont(font)
    decreases g.xres - x
  {
    if s == [] then []
    else
      CharWrites(font, x, y, s[0], fg, bg) +
      if x + 32 >= g.xres then [] else StrWrites(g, font, x + 16, y, s[1..], fg, bg)
  }

  ghost predicate InBox(ws: seq<Px>, x0: int, x1: int, y0: int, y1: int) {
    forall i | 0 <= i < |ws| :: x0 <= ws[i].x < x1 && y0 <= ws[i].y < y1
  }

  lemma {:induction false} GlyphRowInBox(x: nat, y: nat, row: nat, n: nat, fg: nat, bg: nat)
    ensures InBox(GlyphRowWrites(x, y, row, n, fg, bg), x, x + 2 * n, y, y + 2)
  {
    if n > 0 {
      GlyphRowInBox(x, y, row, n - 1, fg, bg);
    }
  }

  lemma {:induction false} GlyphInBox(x: nat, y: nat, glyph: seq<nat>, n: nat, fg: nat, bg: nat)
    requires n <= |glyph|
    ensures InBox(GlyphWrites(x, y, glyph, n, fg, bg), x, x + 16, y, y + 2 * n)
  {
    if n > 0 {
      GlyphInBox(x, y, glyph, n - 1, fg, bg);
      GlyphRowInBox(x, y + (n - 1) * 2, glyph[n - 1], 8, fg, bg);
    }
  }

  /** Text keeps to its sixteen lines, and to the left of the last column when its first character does. */
  lemma {:induction false} StrInBox(g: Geometry, font: seq<seq<nat>>, x: nat, y: nat, s: string, fg: nat, bg: nat)
    requires ValidFont(font)
    ensures InRows(StrWrites(g, font, x, y, s, fg, bg), y, y + 16)
    ensures x + 16 < g.xres ==> InBox(StrWrites(g, font, x, y, s, fg, bg), x, g.xres - 1, y, y + 16)
    decreases |s|
  {
    if s != [] {
      GlyphInBox(x, y, font[GlyphIndex(s[0])], 8, fg, bg);
      if x + 32 < g.xres {
        StrInBox(g, font, x + 16, y, s[1..], fg, bg);
      }
    }
  }

  // ----- the first byte of a line -----

  /** All of ws that touches byte a stores v there. */
  ghost predicate CleanAt(g: Geometry, ws: seq<Px>, a: nat, v: byte) {
    forall i | 0 <= i < |ws| :: Covers(g, ws[i], a) ==> ByteOf(ws[i].pix, a - Start(g, ws[i])) == v
  }

  lemma CleanConcat(g: Geometry, u: seq<Px>, v: seq<Px>, a: nat, b: byte)
    requires CleanAt(g, u, a, b) && CleanAt(g, v, a, b)
    ensures CleanAt(g, u + v, a, b)
  {}

  lemma {:induction false} CleanValue(g: Geometry, ws: seq<Px>, a: nat, v: byte)
    requires CleanAt(g, ws, a, v)
    ensures LastWrite(g, ws, a) in {None, Some(v)}
  {
    if ws != [] {
      var last := |ws| - 1;
      if !Covers(g, ws[last], a) {
        forall i | 0 <= i < last
          ensures Covers(g, ws[..last][i], a) ==> ByteOf(ws[..last][i].pix, a - Start(g, ws[..last][i])) == v
        {
          assert ws[..last][i] == ws[i];
        }
        CleanValue(g, ws[..last], a, v);
      }
    }
  }

  /** The first byte of a line is touched by the line's first pixel, and by the last pixel of
      the line above when that one does not stay in its line. */
  lemma LineStartTouched(g: Geometry, p: Px, y: nat)
    requires g.Valid() && Covers(g, p, g.At(y, 0))
    ensures (p.x == 0 && p.y == y) || (p.x == g.xres - 1 && p.y + 1 == y && !g.Tight())
    ensures p.y == y ==> g.At(y, 0) - Start(g, p) == 0
    ensures p.y + 1 == y ==> g.At(y, 0) - Start(g, p) == g.PixelBytes()
  {
    MulStep(p.x, g.xres, g.PixelBytes());
    MulStep(p.y, y, g.line);
    MulStep(y, p.y, g.line);
    MulStep(0, p.x, g.PixelBytes());
  }

  /** Where the last pixel of a packed line ends, the next line starts. */
  lemma LastPixelMeetsNextLine(g: Geometry, y: nat, pix: nat)
    requires g.Valid() && !g.Tight()
    ensures Start(g, Px(g.xres - 1, y, pix)) + g.PixelBytes() == g.At(y + 1, 0)
  {
    assert (g.xres - 1) * g.PixelBytes() + g.PixelBytes() == g.xres * g.PixelBytes();
    assert (y + 1) * g.line == y * g.line + g.line;
  }

  lemma TextMissesLineStart(g: Geometry, ws: seq<Px>, y0: int, y1: int, y: nat)
    requires g.Valid() && InBox(ws, 1, g.xres - 1, y0, y1)
    ensures LastWrite(g, ws, g.At(y, 0)) == None
  {
    TextCleanAtLineStart(g, ws, y0, y1, y, 0);
    TextCleanAtLineStart(g, ws, y0, y1, y, 1);
    CleanValue(g, ws, g.At(y, 0), 0);
    CleanValue(g, ws, g.At(y, 0), 1);
  }

  lemma TextCleanAtLineStart(g: Geometry, ws: seq<Px>, y0: int, y1: int, y: nat, v: byte)
    requires g.Valid() && InBox(ws, 1, g.xres - 1, y0, y1)
    ensures CleanAt(g, ws, g.At(y, 0), v)
  {
    forall i | 0 <= i < |ws| && Covers(g, ws[i], g.At(y, 0))
      ensures false
    {
      LineStartTouched(g, ws[i], y);
    }
  }

  lemma FillCleanAtLineStart(g: Geometry, y0: nat, y1: nat, pix: nat, y: nat)
    requires g.Valid() && ByteOf(pix, g.PixelBytes()) == ByteOf(pix, 0)
    ensures CleanAt(g, FillWrites(g, 0, y0, g.xres, y1, pix), g.At(y, 0), ByteOf(pix, 0))
  {
    var ws := FillWrites(g, 0, y0, g.xres, y1, pix);
    RectShape(0, g.xres, y0, Min(y1, g.yres), pix);
    forall i | 0 <= i < |ws| && Covers(g, ws[i], g.At(y, 0))
      ensures ByteOf(ws[i].pix, g.At(y, 0) - Start(g, ws[i])) == ByteOf(pix, 0)
    {
      LineStartTouched(g, ws[i], y);
    }
  }
}
